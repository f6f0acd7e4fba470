/** The rows that call detail records leave in the database. 0 stands for NULL in times and status. */
module CdrRows {
  import opened CallTables

  datatype SessionRow = SessionRow(start: nat, connect: nat, end: nat, status: nat, cause: Cause, carrier: string,
      trunk: string)
  datatype TryRow = TryRow(uuid: string, start: nat, connect: nat, end: nat, status: nat, carrier: string,
      trunk: string)

  datatype Db = Db(sessions: map<string, SessionRow>, tries: seq<TryRow>)

  const EMPTY: Db := Db(map[], [])

  function TryRowOf(c: Cdr): TryRow {
    if c.status == 200 then TryRow(c.uuid, c.start, c.connect, 0, c.status, c.carrier, c.trunk)
    else TryRow(c.uuid, c.start, 0, c.end, c.status, c.carrier, c.trunk)
  }

  /** The answered attempts of session `uuid` end when the call does. */
  function EndTry(r: TryRow, uuid: string, end: nat): TryRow {
    if r.uuid == uuid && r.status == 200 then r.(end := end) else r
  }

  function EndTries(rows: seq<TryRow>, uuid: string, end: nat): seq<TryRow> {
    seq(|rows|, i requires 0 <= i < |rows| => EndTry(rows[i], uuid, end))
  }

  /** The effect of one record. Session ids are a unique index and the key the attempts refer to, so a
      second insert of an id, or an attempt of an unknown session, is refused. */
  function Write(db: Db, c: Cdr): Db {
    match c.kind
    case OriginationRequest =>
      if c.uuid in db.sessions then db
      else db.(sessions := db.sessions[c.uuid := SessionRow(c.start, 0, c.end, c.status, c.cause, "", "")])
    case OriginationFinal =>
      if c.uuid !in db.sessions then db
      else if c.status == 200 then
        var r := db.sessions[c.uuid].(status := c.status, connect := c.connect, end := 0, cause := NoCause);
        db.(sessions := db.sessions[c.uuid := r])
      else
        var r := db.sessions[c.uuid].(status := c.status, connect := 0, end := c.end, cause := TerminationCarriers);
        db.(sessions := db.sessions[c.uuid := r])
    case OriginationCancel =>
      if c.uuid !in db.sessions then db
      else db.(sessions := db.sessions[c.uuid := db.sessions[c.uuid].(status := 487, end := c.end, cause := Canceled)])
    case TerminationTry =>
      if c.uuid !in db.sessions then db
      else
        var r := db.sessions[c.uuid].(carrier := c.carrier, trunk := c.trunk);
        Db(db.sessions[c.uuid := r], db.tries + [TryRowOf(c)])
    case CallCleared =>
      Db(if c.uuid !in db.sessions then db.sessions
         else db.sessions[c.uuid := db.sessions[c.uuid].(end := c.end, cause := c.cause)],
         EndTries(db.tries, c.uuid, c.end))
  }

  function Replay(rs: seq<Cdr>): Db {
    if rs == [] then EMPTY else Write(Replay(rs[..|rs| - 1]), rs[|rs| - 1])
  }

  lemma ReplaySnoc(rs: seq<Cdr>, c: Cdr)
    ensures Replay(rs + [c]) == Write(Replay(rs), c)
  {
    assert (rs + [c])[..|rs|] == rs;
  }

  /** The writer, one prepared statement after another. */
  class CdrWriter {
    var sessions: map<string, SessionRow>
    var tries: seq<TryRow>

    ghost function Rows(): Db
      reads this
    {
      Db(sessions, tries)
    }

    constructor ()
      ensures Rows() == EMPTY
    {
      sessions, tries := map[], [];
    }

    method WriteOriginationRequest(c: Cdr)
      requires c.kind == OriginationRequest
      modifies this
      ensures Rows() == Write(old(Rows()), c)
    {
      if c.uuid !in sessions {
        sessions := sessions[c.uuid := SessionRow(c.start, 0, c.end, c.status, c.cause, "", "")];
      }
    }

    method WriteOriginationFinal(c: Cdr)
      requires c.kind == OriginationFinal
      modifies this
      ensures Rows() == Write(old(Rows()), c)
    {
      var connect, end, cause := 0, c.end, TerminationCarriers;
      if c.status == 200 {
        connect, end, cause := c.connect, 0, NoCause;
      }
      if c.uuid in sessions {
        var r := sessions[c.uuid].(status := c.status, connect := connect, end := end, cause := cause);
        sessions := sessions[c.uuid := r];
      }
    }

    method WriteOriginationCancel(c: Cdr)
      requires c.kind == OriginationCancel
      modifies this
      ensures Rows() == Write(old(Rows()), c)
    {
      if c.uuid in sessions {
        sessions := sessions[c.uuid := sessions[c.uuid].(status := 487, end := c.end, cause := Canceled)];
      }
    }

    method WriteTerminationTry(c: Cdr)
      requires c.kind == TerminationTry
      modifies this
      ensures Rows() == Write(old(Rows()), c)
    {
      if c.uuid !in sessions { return; }
      var connect, end := 0, c.end;
      if c.status == 200 {
        connect, end := c.connect, 0;
      }
      tries := tries + [TryRow(c.uuid, c.start, connect, end, c.status, c.carrier, c.trunk)];
      sessions := sessions[c.uuid := sessions[c.uuid].(carrier := c.carrier, trunk := c.trunk)];
    }

    method WriteBye(c: Cdr)
      requires c.kind == CallCleared
      modifies this
      ensures Rows() == Write(old(Rows()), c)
    {
      if c.uuid in sessions {
        sessions := sessions[c.uuid := sessions[c.uuid].(end := c.end, cause := c.cause)];
      }
      var i, done := 0, [];
      while i < |tries|
        invariant 0 <= i <= |tries| && |done| == i
        invariant forall k :: 0 <= k < i ==> done[k] == EndTry(tries[k], c.uuid, c.end)
        invariant tries == old(tries)
        invariant sessions == Write(old(Rows()), c).sessions
      {
        var r := tries[i];
        done := done + [if r.uuid == c.uuid && r.status == 200 then r.(end := c.end) else r];
        i := i + 1;
      }
      tries := done;
      assert tries == EndTries(old(tries), c.uuid, c.end);
    }

    method WriteCdr(c: Cdr)
      modifies this
      ensures Rows() == Write(old(Rows()), c)
    {
      match c.kind {
        case OriginationRequest => WriteOriginationRequest(c);
        case OriginationFinal => WriteOriginationFinal(c);
        case OriginationCancel => WriteOriginationCancel(c);
        case TerminationTry => WriteTerminationTry(c);
        case CallCleared => WriteBye(c);
      }
    }
  }
}
