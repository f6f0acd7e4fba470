/** What the stateless proxy has done so far, and what that record alone says about a call. */
module StatelessLog {
  import opened Options

  /** Seconds a completed call is kept for retransmissions. */
  const MAX_RETRANSMISSION_WAIT: nat := 8

  datatype Entry =
    | Placed(id: string, dest: string)                 // first INVITE sent to a chosen server
    | Forwarded(id: string, dest: string, now: nat)    // further request of a tracked call
    | Answered(id: string, now: nat)                   // the call's INVITE was answered 200
    | Dropped(id: string, now: nat)                    // the call is forgotten
    | Replied(id: string, code: nat)
    | Discarded(id: string)
    | Returned(id: string)                             // a response passed back

  /** Where the call's requests go: the server of its latest placement, unless dropped since. */
  function Owner(log: seq<Entry>, id: string): Option<string> {
    if log == [] then None
    else
      var e := log[|log| - 1];
      if e.Placed? && e.id == id then Some(e.dest)
      else if e.Dropped? && e.id == id then None
      else Owner(log[..|log| - 1], id)
  }

  /** Whether the call was answered 200 since it was placed. */
  predicate Done(log: seq<Entry>, id: string) {
    log != [] &&
    var e := log[|log| - 1];
    if (e.Placed? || e.Dropped?) && e.id == id then false
    else (e.Answered? && e.id == id) || Done(log[..|log| - 1], id)
  }

  /** When the call was last heard of: a further request, or its answer. */
  function LastHeard(log: seq<Entry>, id: string): nat {
    if log == [] then 0
    else
      var e := log[|log| - 1];
      if (e.Forwarded? || e.Answered?) && e.id == id then e.now
      else LastHeard(log[..|log| - 1], id)
  }

  /** What may happen next: a call is placed only while unknown, its requests go to its own
      server, and it is dropped only after its answer and eight seconds of silence. */
  predicate Allowed(log: seq<Entry>, e: Entry) {
    match e
    case Placed(id, _) => Owner(log, id) == None
    case Forwarded(id, dest, _) => Owner(log, id) == Some(dest)
    case Answered(id, _) => Owner(log, id).Some? && !Done(log, id)
    case Dropped(id, now) =>
      Owner(log, id).Some? && Done(log, id) && LastHeard(log, id) + 8 <= now
    case _ => true
  }

  ghost predicate Proper(log: seq<Entry>) {
    forall i :: 0 <= i < |log| ==> Allowed(log[..i], log[i])
  }

  lemma ProperSnoc(log: seq<Entry>, e: Entry)
    requires Proper(log) && Allowed(log, e)
    ensures Proper(log + [e])
  {
    forall i | 0 <= i < |log| + 1
      ensures Allowed((log + [e])[..i], (log + [e])[i])
    {
      assert (log + [e])[..i] == log[..i];
      assert log[..|log|] == log;
    }
  }

  /** How one entry changes what the record says about call `id`. */
  lemma Snoc(log: seq<Entry>, e: Entry, id: string)
    ensures Owner(log + [e], id) ==
      (if e.Placed? && e.id == id then Some(e.dest) else if e.Dropped? && e.id == id then None else Owner(log, id))
    ensures Done(log + [e], id) ==
      (if (e.Placed? || e.Dropped?) && e.id == id then false else (e.Answered? && e.id == id) || Done(log, id))
    ensures LastHeard(log + [e], id) ==
      (if (e.Forwarded? || e.Answered?) && e.id == id then e.now else LastHeard(log, id))
  {
    assert (log + [e])[..|log|] == log;
  }

  function CallsPlaced(log: seq<Entry>): nat {
    if log == [] then 0
    else CallsPlaced(log[..|log| - 1]) + if log[|log| - 1].Placed? then 1 else 0
  }
}
