/** The stateful call tables of the controller and the part of the SIP stack they refer to.
    Handles are numbers, 0 being the null pointer. The stack may hand out a number again once
    the object it named has been destroyed. */
module CallTables {
  import opened Options
  import opened Bimaps

  type Irq = nat    // incoming (server) transaction
  type Orq = nat    // outgoing (client) transaction
  type Leg = nat    // dialog leg
  const NULL: nat := 0

  /** Who answers responses on an outgoing transaction. */
  datatype TxnKind = Invite | InDialog

  /** `leg` is what a dialog lookup finds for the transaction: NULL once that leg is destroyed. */
  datatype OutTxn = OutTxn(kind: TxnKind, leg: Leg)

  /** `bound`: ACK and CANCEL are delivered to the controller. `leg`: the A leg of a bound transaction. */
  datatype InTxn = InTxn(bound: bool, leg: Leg)

  /** The live objects of the SIP stack. */
  datatype Stack = Stack(irqs: map<Irq, InTxn>, orqs: map<Orq, OutTxn>, legs: set<Leg>) {

    function DestroyLeg(l: Leg): Stack {
      Stack(map i | i in irqs :: if irqs[i].leg == l then irqs[i].(leg := NULL) else irqs[i],
            map o | o in orqs :: if orqs[o].leg == l then orqs[o].(leg := NULL) else orqs[o],
            legs - {l})
    }

    function DestroyIrq(i: Irq): Stack { this.(irqs := irqs - {i}) }

    function DestroyOrq(o: Orq): Stack { this.(orqs := orqs - {o}) }
  }

  datatype CdrKind = OriginationRequest | OriginationFinal | OriginationCancel | TerminationTry | CallCleared

  datatype Cause =
    | NoCause | CallingPartyRelease | CalledPartyRelease | Canceled
    | TerminationCarriers | SystemError

  /** A call detail record. Times are seconds; 0 means not set. */
  datatype Cdr = Cdr(kind: CdrKind, uuid: string, status: nat, start: nat, connect: nat, end: nat,
                     cause: Cause, carrier: string, trunk: string)

  datatype Attempt = Attempt(count: nat, url: string, carrier: string, trunk: string, cdr: Cdr)

  /** `answered`: the SDP of a 200 to the call's INVITE has been stored. */
  datatype Info = Info(leg: Leg, origination: bool, timerSecs: nat, timer: bool, answered: bool, cdr: Option<Cdr>)

  datatype Tables = Tables(
    txns: Bimap<Irq, Orq>,
    dialogs: Bimap<Leg, Leg>,
    attempts: map<Orq, Attempt>,
    infos: map<Leg, Info>,
    stack: Stack)

  /** Places where the source asserts, dereferences an end iterator or drops an insert. */
  datatype Fault =
    | InviteTxnGone | InviteLegGone | InviteALegGone | InviteCdrGone
    | DialogPeerGone | TxnGone | ReinviteLegGone | TimerPeerGone
    | ClearUnpaired | UpdateUnpaired | UpdateNoInfo
    | TxnInsertIgnored | DialogInsertIgnored

  /** The tables after an operation, with the faults it ran into. */
  datatype Out = Out(t: Tables, faults: set<Fault>) {
    function Then(next: Out): Out { next.(faults := faults + next.faults) }
  }

  function Done(t: Tables): Out { Out(t, {}) }

  /** An insert into a hash map keeps an entry that is already there. */
  function MapInsert<K, V>(m: map<K, V>, k: K, v: V): map<K, V> {
    if k in m then m else m[k := v]
  }

  function Peer(d: Bimap<Leg, Leg>, leg: Leg): Option<Leg> {
    if leg in d.left then Some(d.left[leg])
    else if leg in d.right then Some(d.right[leg])
    else None
  }

  function AddTransactions(t: Tables, irq: Irq, orq: Orq): Out {
    Out(t.(txns := t.txns.Insert(irq, orq)), if t.txns.CanInsert(irq, orq) then {} else {TxnInsertIgnored})
  }

  function AddDialogs(t: Tables, a: Leg, b: Leg): Out {
    Out(t.(dialogs := t.dialogs.Insert(a, b)), if t.dialogs.CanInsert(a, b) then {} else {DialogInsertIgnored})
  }

  function IrqOf(t: Tables, orq: Orq): Irq {
    if orq in t.txns.right then t.txns.right[orq] else NULL
  }

  function ClearTransaction(t: Tables, orq: Orq): Tables {
    t.(txns := t.txns.EraseRight(orq), stack := t.stack.DestroyIrq(IrqOf(t, orq)).DestroyOrq(orq))
  }

  function ReplaceTransaction(t: Tables, irq: Irq, orq: Orq, newOrq: Orq): Out {
    AddTransactions(t.(txns := t.txns.EraseRight(orq), stack := t.stack.DestroyOrq(orq)), irq, newOrq)
  }

  function ClearDialog(t: Tables, leg: Leg): Out {
    var t1 := t.(dialogs := t.dialogs.EraseLeft(leg).EraseRight(leg),
                 infos := t.infos - {leg},
                 stack := t.stack.DestroyLeg(leg));
    match Peer(t.dialogs, leg)
    case None => Out(t1, {ClearUnpaired})
    case Some(other) => Done(t1.(infos := t1.infos - {other}, stack := t1.stack.DestroyLeg(other)))
  }

  function UpdateDialog(t: Tables, oldB: Leg, newB: Leg): Out {
    match Peer(t.dialogs, oldB)
    case None => Out(t, {UpdateUnpaired})
    case Some(a) =>
      var o := AddDialogs(t.(dialogs := t.dialogs.EraseRight(oldB)), a, newB);
      var t1 := o.t.(stack := o.t.stack.DestroyLeg(oldB));
      if oldB in t1.infos then
        o.Then(Done(t1.(infos := MapInsert(t1.infos, newB, t1.infos[oldB].(leg := newB)) - {oldB})))
      else
        o.Then(Out(t1, {UpdateNoInfo}))
  }

  /** Record a new call whose INVITE has been sent: legs, transactions, dialog info and, for a
      termination, the attempt. */
  function AddCall(t: Tables, irq: Irq, a: Leg, b: Leg, orq: Orq, attempt: Option<Attempt>, info: Info): Out {
    var st := Stack(t.stack.irqs[irq := InTxn(true, a)], t.stack.orqs[orq := OutTxn(Invite, b)],
                    t.stack.legs + (if a == NULL then {} else {a}) + {b});
    var t1 := t.(stack := st,
                 infos := MapInsert(t.infos, info.leg, info),
                 attempts := if attempt.Some? then MapInsert(t.attempts, orq, attempt.value) else t.attempts);
    var o := AddTransactions(t1, irq, orq);
    o.Then(AddDialogs(o.t, a, b))
  }

  /** Move a pending termination from `orq` on leg `oldB` to a freshly sent `newOrq` on `newB`. */
  function MoveCall(t: Tables, irq: Irq, orq: Orq, oldB: Leg, newOrq: Orq, newB: Leg, attempt: Attempt): Out {
    var t1 := t.(stack := t.stack.(orqs := t.stack.orqs[newOrq := OutTxn(Invite, newB)],
      legs := t.stack.legs + {newB}));
    var o := ReplaceTransaction(t1, irq, orq, newOrq);
    var t2 := o.t.(attempts := MapInsert(o.t.attempts - {orq}, newOrq, attempt));
    o.Then(UpdateDialog(t2, oldB, newB))
  }

  function AddInDialog(t: Tables, irq: Irq, orq: Orq, other: Leg): Out {
    var st := t.stack.(irqs := t.stack.irqs[irq := InTxn(false, NULL)],
                       orqs := if orq == NULL then t.stack.orqs else t.stack.orqs[orq := OutTxn(InDialog, other)]);
    AddTransactions(t.(stack := st), irq, orq)
  }

  function EraseAttempt(t: Tables, orq: Orq): Tables { t.(attempts := t.attempts - {orq}) }

  function MarkAnswered(t: Tables, a: Leg, timer: bool): Tables {
    if a in t.infos then
      t.(infos := t.infos[a := t.infos[a].(answered := true, timer := t.infos[a].timer || timer)])
    else t
  }

  // ---- what every run keeps -------------------------------------------------------------

  /** Legs: the live ones are exactly the paired ones, and no leg is on both sides. */
  ghost predicate LegsPaired(t: Tables) {
    && t.dialogs.Ok()
    && (forall l :: l in t.dialogs.left ==> l !in t.dialogs.right)
    && (forall l :: l in t.stack.legs <==> l in t.dialogs.left || l in t.dialogs.right)
    && NULL !in t.stack.legs
  }

  ghost predicate InfoOk(t: Tables, l: Leg)
    requires l in t.infos
  {
    var f := t.infos[l];
    && l in t.stack.legs && f.leg == l
    && (f.origination <==> l in t.dialogs.left)
    && (f.cdr.Some? <==> f.origination)
    && (f.timer ==> f.origination && f.answered)
  }

  /** Each pair has exactly one info entry: on the A leg for an origination, on the B leg for a termination. */
  ghost predicate InfosMatch(t: Tables) {
    && (forall l :: l in t.infos ==> InfoOk(t, l))
    && (forall a :: a in t.dialogs.left ==> (a in t.infos <==> t.dialogs.left[a] !in t.infos))
  }

  /** The live transactions are exactly the paired ones. */
  ghost predicate TxnsPaired(t: Tables) {
    && t.txns.Ok()
    && (forall i :: i in t.txns.left <==> i in t.stack.irqs)
    && (forall o :: o in t.txns.right <==> o in t.stack.orqs)
    && NULL !in t.stack.irqs && NULL !in t.stack.orqs
    && (forall o :: o in t.attempts ==> o in t.stack.orqs)
  }

  /** How one outgoing transaction is tied to its incoming one and to the dialog tables. */
  ghost predicate Linked(t: Tables, o: Orq)
    requires o in t.stack.orqs && o in t.txns.right && t.txns.right[o] in t.stack.irqs
  {
    var x := t.stack.orqs[o];
    var i := t.stack.irqs[t.txns.right[o]];
    && (x.leg != NULL ==> x.leg in t.stack.legs)
    && (x.kind == InDialog ==> !i.bound && i.leg == NULL && o !in t.attempts)
    && (x.kind == Invite ==>
          && i.bound
          && (x.leg == NULL <==> i.leg == NULL)
          && (x.leg != NULL ==>
                && i.leg in t.dialogs.left && t.dialogs.left[i.leg] == x.leg
                && (o in t.attempts <==> x.leg in t.infos)
                && (i.leg in t.infos ==> !t.infos[i.leg].answered)))
  }

  /** Two pending INVITEs are never on the same leg. */
  ghost predicate Distinct(t: Tables, o: Orq, p: Orq)
    requires o in t.stack.orqs && p in t.stack.orqs
  {
    t.stack.orqs[o].kind == Invite && t.stack.orqs[o] == t.stack.orqs[p] && t.stack.orqs[o].leg != NULL ==> o == p
  }

  ghost predicate AllLinked(t: Tables)
    requires TxnsPaired(t)
  {
    && (forall o :: o in t.stack.orqs ==> Linked(t, o))
    && (forall o, p :: o in t.stack.orqs && p in t.stack.orqs ==> Distinct(t, o, p))
  }

  ghost predicate Inv(t: Tables) {
    LegsPaired(t) && InfosMatch(t) && TxnsPaired(t) && AllLinked(t)
  }

  /** Looking up the peer twice comes back to the leg one started from. */
  lemma PeerIsInvolution(t: Tables, leg: Leg)
    requires LegsPaired(t) && leg in t.stack.legs
    ensures Peer(t.dialogs, leg).Some?
    ensures Peer(t.dialogs, leg).value in t.stack.legs && Peer(t.dialogs, leg).value != leg
    ensures Peer(t.dialogs, Peer(t.dialogs, leg).value) == Some(leg)
  {
  }

  lemma DeadLegHasNoInfo(t: Tables, l: Leg)
    requires InfosMatch(t) && l !in t.stack.legs
    ensures l !in t.infos
  {
  }

  // ---- a new call ----

  /** `u` is `t` with one new pair of legs and its info. */
  ghost predicate PairAdded(t: Tables, u: Tables, a: Leg, b: Leg, info: Info) {
    && a !in t.stack.legs && a != NULL && b !in t.stack.legs && b != NULL && a != b
    && info.leg == (if info.origination then a else b)
    && info.origination == info.cdr.Some? && !info.timer
    && u.dialogs == Bimap(t.dialogs.left[a := b], t.dialogs.right[b := a])
    && u.stack.legs == t.stack.legs + {a, b}
    && u.infos == t.infos[info.leg := info]
  }

  /** `u` is `t` with one new pair of transactions, pending an answer to an INVITE on leg `b`. */
  ghost predicate InviteAdded(t: Tables, u: Tables, irq: Irq, a: Leg, orq: Orq, b: Leg, attempt: Option<Attempt>) {
    && irq !in t.stack.irqs && irq != NULL && orq !in t.stack.orqs && orq != NULL
    && u.txns == Bimap(t.txns.left[irq := orq], t.txns.right[orq := irq])
    && u.stack.irqs == t.stack.irqs[irq := InTxn(true, a)]
    && u.stack.orqs == t.stack.orqs[orq := OutTxn(Invite, b)]
    && u.attempts == (if attempt.Some? then t.attempts[orq := attempt.value] else t.attempts)
  }

  lemma PairAddedLegs(t: Tables, u: Tables, a: Leg, b: Leg, info: Info)
    requires LegsPaired(t) && PairAdded(t, u, a, b, info)
    ensures LegsPaired(u)
  {
  }

  lemma PairAddedInfos(t: Tables, u: Tables, a: Leg, b: Leg, info: Info)
    requires LegsPaired(t) && InfosMatch(t) && LegsPaired(u) && PairAdded(t, u, a, b, info)
    ensures InfosMatch(u)
  {
    forall l | l in u.infos ensures InfoOk(u, l) {
      if l != info.leg { assert InfoOk(t, l); }
    }
    forall x | x in u.dialogs.left ensures x in u.infos <==> u.dialogs.left[x] !in u.infos {
      if x != a { assert x in t.dialogs.left; }
    }
  }

  lemma InviteAddedTxns(t: Tables, u: Tables, irq: Irq, a: Leg, orq: Orq, b: Leg, attempt: Option<Attempt>)
    requires TxnsPaired(t) && InviteAdded(t, u, irq, a, orq, b, attempt)
    ensures TxnsPaired(u)
  {
  }

  lemma InviteAddedLinked(t: Tables, u: Tables, irq: Irq, a: Leg, orq: Orq, b: Leg, attempt: Option<Attempt>,
      info: Info, o: Orq)
    requires Inv(t) && TxnsPaired(u) && PairAdded(t, u, a, b, info) && InviteAdded(t, u, irq, a, orq, b, attempt)
    requires info.origination == attempt.None? && (info.origination ==> !info.answered)
    requires o in u.stack.orqs
    ensures Linked(u, o)
  {
    if o != orq {
      assert Linked(t, o);
    } else {
      DeadLegHasNoInfo(t, a);
      DeadLegHasNoInfo(t, b);
    }
  }

  lemma InviteAddedDistinct(t: Tables, u: Tables, irq: Irq, a: Leg, orq: Orq, b: Leg, attempt: Option<Attempt>)
    requires TxnsPaired(t) && AllLinked(t) && InviteAdded(t, u, irq, a, orq, b, attempt) && b !in t.stack.legs
    ensures forall o, p :: o in u.stack.orqs && p in u.stack.orqs ==> Distinct(u, o, p)
  {
    forall o, p | o in u.stack.orqs && p in u.stack.orqs ensures Distinct(u, o, p) {
      if o != orq { assert Linked(t, o); }
      if p != orq { assert Linked(t, p); }
      if o != orq && p != orq { assert Distinct(t, o, p); }
    }
  }

  ghost predicate NewCall(t: Tables, irq: Irq, a: Leg, b: Leg, orq: Orq, attempt: Option<Attempt>, info: Info) {
    && irq !in t.stack.irqs && irq != NULL && orq !in t.stack.orqs && orq != NULL
    && a !in t.stack.legs && a != NULL && b !in t.stack.legs && b != NULL && a != b
    && info.leg == (if info.origination then a else b)
    && info.origination == attempt.None? == info.cdr.Some? && !info.timer && !info.answered
  }

  lemma AddCallEffect(t: Tables, irq: Irq, a: Leg, b: Leg, orq: Orq, attempt: Option<Attempt>, info: Info)
    requires Inv(t) && NewCall(t, irq, a, b, orq, attempt, info)
    ensures AddCall(t, irq, a, b, orq, attempt, info).faults == {}
    ensures PairAdded(t, AddCall(t, irq, a, b, orq, attempt, info).t, a, b, info)
    ensures InviteAdded(t, AddCall(t, irq, a, b, orq, attempt, info).t, irq, a, orq, b, attempt)
  {
    DeadLegHasNoInfo(t, info.leg);
    assert AddCall(t, irq, a, b, orq, attempt, info).t.stack.legs == t.stack.legs + {a, b};
  }

  lemma AddCallKeepsInv(t: Tables, irq: Irq, a: Leg, b: Leg, orq: Orq, attempt: Option<Attempt>, info: Info)
    requires Inv(t) && NewCall(t, irq, a, b, orq, attempt, info)
    ensures AddCall(t, irq, a, b, orq, attempt, info).faults == {}
    ensures Inv(AddCall(t, irq, a, b, orq, attempt, info).t)
  {
    var u := AddCall(t, irq, a, b, orq, attempt, info).t;
    AddCallEffect(t, irq, a, b, orq, attempt, info);
    PairAddedLegs(t, u, a, b, info);
    PairAddedInfos(t, u, a, b, info);
    InviteAddedTxns(t, u, irq, a, orq, b, attempt);
    forall o | o in u.stack.orqs ensures Linked(u, o) {
      InviteAddedLinked(t, u, irq, a, orq, b, attempt, info, o);
    }
    InviteAddedDistinct(t, u, irq, a, orq, b, attempt);
  }

  // ---- a finished transaction ----

  lemma ClearTransactionKeepsInv(t: Tables, orq: Orq)
    requires Inv(t) && orq in t.stack.orqs
    ensures Inv(EraseAttempt(ClearTransaction(t, orq), orq))
  {
    var u := EraseAttempt(ClearTransaction(t, orq), orq);
    forall l | l in u.infos ensures InfoOk(u, l) { assert InfoOk(t, l); }
    forall o | o in u.stack.orqs ensures Linked(u, o) { assert Linked(t, o); }
    forall o, p | o in u.stack.orqs && p in u.stack.orqs ensures Distinct(u, o, p) { assert Distinct(t, o, p); }
  }

  // ---- a finished dialog ----

  function Detach(l: Leg, a: Leg, b: Leg): Leg { if l == a || l == b then NULL else l }

  /** `u` is `t` without the pair (a, b); transactions on these legs lose their leg. */
  ghost predicate DialogCleared(t: Tables, u: Tables, a: Leg, b: Leg) {
    && a in t.dialogs.left && t.dialogs.left[a] == b
    && u.txns == t.txns && u.attempts == t.attempts
    && u.dialogs == Bimap(t.dialogs.left - {a}, t.dialogs.right - {b})
    && u.infos == t.infos - {a, b}
    && u.stack.legs == t.stack.legs - {a, b}
    && u.stack.irqs == (map i | i in t.stack.irqs :: t.stack.irqs[i].(leg := Detach(t.stack.irqs[i].leg, a, b)))
    && u.stack.orqs == (map o | o in t.stack.orqs :: t.stack.orqs[o].(leg := Detach(t.stack.orqs[o].leg, a, b)))
  }

  lemma DialogClearedLegs(t: Tables, u: Tables, a: Leg, b: Leg)
    requires LegsPaired(t) && InfosMatch(t) && DialogCleared(t, u, a, b)
    ensures LegsPaired(u) && InfosMatch(u)
  {
    forall l | l in u.infos ensures InfoOk(u, l) { assert InfoOk(t, l); }
  }

  lemma DialogClearedLinked(t: Tables, u: Tables, a: Leg, b: Leg, o: Orq)
    requires Inv(t) && TxnsPaired(u) && DialogCleared(t, u, a, b) && o in u.stack.orqs
    ensures Linked(u, o)
  {
    assert Linked(t, o);
    var i := t.txns.right[o];
    assert u.stack.irqs[i] == t.stack.irqs[i].(leg := Detach(t.stack.irqs[i].leg, a, b));
  }

  lemma DialogClearedDistinct(t: Tables, u: Tables, a: Leg, b: Leg, o: Orq, p: Orq)
    requires Inv(t) && DialogCleared(t, u, a, b) && o in u.stack.orqs && p in u.stack.orqs
    ensures Distinct(u, o, p)
  {
    assert Distinct(t, o, p);
  }

  lemma ClearDialogShape(t: Tables, leg: Leg)
    requires LegsPaired(t) && leg in t.stack.legs
    ensures ClearDialog(t, leg).faults == {}
    ensures leg in t.dialogs.left ==> DialogCleared(t, ClearDialog(t, leg).t, leg, t.dialogs.left[leg])
    ensures leg in t.dialogs.right ==> DialogCleared(t, ClearDialog(t, leg).t, t.dialogs.right[leg], leg)
  {
    PeerIsInvolution(t, leg);
    var u := ClearDialog(t, leg).t;
    var other := Peer(t.dialogs, leg).value;
    assert u.stack.legs == t.stack.legs - {leg, other};
    assert u.infos == t.infos - {leg, other};
  }

  lemma ClearDialogKeepsInv(t: Tables, leg: Leg)
    requires Inv(t) && leg in t.stack.legs
    ensures ClearDialog(t, leg).faults == {}
    ensures Inv(ClearDialog(t, leg).t)
  {
    ClearDialogShape(t, leg);
    var u := ClearDialog(t, leg).t;
    var (a, b) := if leg in t.dialogs.left then (leg, t.dialogs.left[leg]) else (t.dialogs.right[leg], leg);
    DialogClearedLegs(t, u, a, b);
    forall o | o in u.stack.orqs ensures Linked(u, o) { DialogClearedLinked(t, u, a, b, o); }
    forall o, p | o in u.stack.orqs && p in u.stack.orqs ensures Distinct(u, o, p) {
      DialogClearedDistinct(t, u, a, b, o, p);
    }
  }

  // ---- a termination moved to another route ----

  /** The B leg of the pair of `a` is now `newB`, which takes over the info of `oldB`. */
  ghost predicate LegReplaced(t: Tables, u: Tables, a: Leg, oldB: Leg, newB: Leg) {
    && newB !in t.stack.legs && newB != NULL
    && a in t.dialogs.left && t.dialogs.left[a] == oldB && oldB in t.infos && !t.infos[oldB].origination
    && u.dialogs == Bimap(t.dialogs.left[a := newB], t.dialogs.right[newB := a] - {oldB})
    && u.infos == t.infos[newB := t.infos[oldB].(leg := newB)] - {oldB}
    && u.stack.legs == t.stack.legs - {oldB} + {newB}
  }

  /** The incoming transaction keeps its A leg and is now paired with the new outgoing one only. */
  ghost predicate InviteReplaced(t: Tables, u: Tables, irq: Irq, orq: Orq, oldB: Leg, newOrq: Orq, newB: Leg,
      attempt: Attempt) {
    && newOrq !in t.stack.orqs && newOrq != NULL
    && orq in t.attempts && orq in t.txns.right && irq == t.txns.right[orq]
    && u.txns == Bimap(t.txns.left[irq := newOrq], t.txns.right[newOrq := irq] - {orq})
    && u.attempts == t.attempts[newOrq := attempt] - {orq}
    && u.stack.irqs == t.stack.irqs
    && u.stack.orqs == (map o | o in t.stack.orqs[newOrq := OutTxn(Invite, newB)] && o != orq ::
                          if o == newOrq then OutTxn(Invite, newB)
                          else t.stack.orqs[o].(leg := Detach(t.stack.orqs[o].leg, oldB, oldB)))
  }

  lemma LegReplacedLegs(t: Tables, u: Tables, a: Leg, oldB: Leg, newB: Leg)
    requires LegsPaired(t) && LegReplaced(t, u, a, oldB, newB)
    ensures LegsPaired(u)
  {
  }

  lemma LegReplacedInfos(t: Tables, u: Tables, a: Leg, oldB: Leg, newB: Leg)
    requires LegsPaired(t) && InfosMatch(t) && LegsPaired(u) && LegReplaced(t, u, a, oldB, newB)
    ensures InfosMatch(u)
  {
    assert InfoOk(t, oldB);
    forall l | l in u.infos ensures InfoOk(u, l) {
      if l != newB { assert InfoOk(t, l); }
    }
    forall x | x in u.dialogs.left ensures x in u.infos <==> u.dialogs.left[x] !in u.infos {
      assert x in t.dialogs.left;
    }
  }

  lemma InviteReplacedTxns(t: Tables, u: Tables, irq: Irq, orq: Orq, oldB: Leg, newOrq: Orq, newB: Leg,
      attempt: Attempt)
    requires TxnsPaired(t) && InviteReplaced(t, u, irq, orq, oldB, newOrq, newB, attempt)
    ensures TxnsPaired(u)
  {
    t.txns.RepairKeepsInverse(orq, newOrq);
    assert forall i :: i in u.txns.left <==> i in t.txns.left;
    assert forall o :: o in u.txns.right <==> o in u.stack.orqs;
  }

  lemma NewInviteLinked(t: Tables, u: Tables, irq: Irq, a: Leg, orq: Orq, oldB: Leg, newOrq: Orq, newB: Leg,
      attempt: Attempt)
    requires LegsPaired(t) && TxnsPaired(t) && TxnsPaired(u) && LegReplaced(t, u, a, oldB, newB)
    requires InviteReplaced(t, u, irq, orq, oldB, newOrq, newB, attempt)
    requires t.stack.irqs[irq] == InTxn(true, a) && (a in t.infos ==> !t.infos[a].answered)
    ensures Linked(u, newOrq)
  {
    assert u.txns.right[newOrq] == irq && a != oldB && a != newB;
  }

  lemma OtherStaysLinked(t: Tables, u: Tables, irq: Irq, a: Leg, orq: Orq, oldB: Leg, newOrq: Orq, newB: Leg,
      attempt: Attempt, o: Orq)
    requires LegReplaced(t, u, a, oldB, newB) && newB !in t.dialogs.left && oldB !in t.dialogs.left
    requires InviteReplaced(t, u, irq, orq, oldB, newOrq, newB, attempt)
    requires o in t.stack.orqs && o in t.txns.right && t.txns.right[o] in t.stack.irqs && Linked(t, o)
    requires o in u.stack.orqs && o in u.txns.right && o != newOrq
    requires t.stack.orqs[o].kind == Invite ==> t.stack.orqs[o].leg != oldB
    ensures Linked(u, o)
  {
    var x, y := t.stack.orqs[o], u.stack.orqs[o];
    assert u.txns.right[o] == t.txns.right[o];
    assert y.kind == x.kind && (x.leg == oldB ==> y.leg == NULL) && (x.leg != oldB ==> y.leg == x.leg);
    assert x.leg != NULL ==> x.leg != newB;
  }

  lemma InviteReplacedLinked(t: Tables, u: Tables, irq: Irq, a: Leg, orq: Orq, oldB: Leg, newOrq: Orq, newB: Leg,
      attempt: Attempt, o: Orq)
    requires Inv(t) && TxnsPaired(u) && LegReplaced(t, u, a, oldB, newB)
    requires InviteReplaced(t, u, irq, orq, oldB, newOrq, newB, attempt)
    requires t.stack.orqs[orq] == OutTxn(Invite, oldB) && t.stack.irqs[irq] == InTxn(true, a) && oldB != NULL
    requires o in u.stack.orqs
    ensures Linked(u, o)
  {
    if o == newOrq {
      assert Linked(t, orq);
      NewInviteLinked(t, u, irq, a, orq, oldB, newOrq, newB, attempt);
    } else {
      assert Linked(t, o);
      assert Distinct(t, o, orq);
      OtherStaysLinked(t, u, irq, a, orq, oldB, newOrq, newB, attempt, o);
    }
  }

  lemma InviteReplacedDistinct(t: Tables, u: Tables, irq: Irq, orq: Orq, oldB: Leg, newOrq: Orq, newB: Leg,
      attempt: Attempt)
    requires TxnsPaired(t) && AllLinked(t) && InviteReplaced(t, u, irq, orq, oldB, newOrq, newB, attempt)
      && newB !in t.stack.legs
    ensures forall o, p :: o in u.stack.orqs && p in u.stack.orqs ==> Distinct(u, o, p)
  {
    forall o, p | o in u.stack.orqs && p in u.stack.orqs ensures Distinct(u, o, p) {
      if o != newOrq { assert Linked(t, o); }
      if p != newOrq { assert Linked(t, p); }
      if o != newOrq && p != newOrq { assert Distinct(t, o, p); }
    }
  }

  lemma ReplaceTransactionShape(t: Tables, irq: Irq, orq: Orq, newOrq: Orq, newB: Leg)
    requires TxnsPaired(t) && orq in t.stack.orqs && irq == t.txns.right[orq]
    requires newOrq !in t.stack.orqs && newOrq != NULL
    ensures var st := t.stack.(orqs := t.stack.orqs[newOrq := OutTxn(Invite, newB)], legs := t.stack.legs + {newB});
            ReplaceTransaction(t.(stack := st), irq, orq, newOrq)
            == Done(t.(txns := Bimap(t.txns.left[irq := newOrq], t.txns.right[newOrq := irq] - {orq}),
                       stack := st.(orqs := t.stack.orqs[newOrq := OutTxn(Invite, newB)] - {orq})))
  {
    assert t.txns.EraseRight(orq).Insert(irq, newOrq).left == t.txns.left[irq := newOrq];
    assert t.txns.EraseRight(orq).Insert(irq, newOrq).right == t.txns.right[newOrq := irq] - {orq};
  }

  lemma UpdateDialogShape(t: Tables, a: Leg, oldB: Leg, newB: Leg)
    requires t.dialogs.Ok() && a in t.dialogs.left && t.dialogs.left[a] == oldB
    requires oldB !in t.dialogs.left && newB !in t.dialogs.right && newB != oldB
    requires oldB in t.infos && newB !in t.infos
    ensures UpdateDialog(t, oldB, newB)
            == Done(t.(dialogs := Bimap(t.dialogs.left[a := newB], t.dialogs.right[newB := a] - {oldB}),
                       infos := t.infos[newB := t.infos[oldB].(leg := newB)] - {oldB},
                       stack := t.stack.DestroyLeg(oldB)))
  {
    assert t.dialogs.EraseRight(oldB).Insert(a, newB).left == t.dialogs.left[a := newB];
    assert t.dialogs.EraseRight(oldB).Insert(a, newB).right == t.dialogs.right[newB := a] - {oldB};
  }

  /** The tables after a move, written out. */
  function Moved(t: Tables, irq: Irq, a: Leg, orq: Orq, oldB: Leg, newOrq: Orq, newB: Leg, attempt: Attempt): Tables
    requires oldB in t.infos
  {
    Tables(Bimap(t.txns.left[irq := newOrq], t.txns.right[newOrq := irq] - {orq}),
           Bimap(t.dialogs.left[a := newB], t.dialogs.right[newB := a] - {oldB}),
           MapInsert(t.attempts - {orq}, newOrq, attempt),
           t.infos[newB := t.infos[oldB].(leg := newB)] - {oldB},
           Stack(t.stack.irqs, t.stack.orqs[newOrq := OutTxn(Invite, newB)] - {orq},
               t.stack.legs + {newB}).DestroyLeg(oldB))
  }

  lemma MoveCallIsMoved(t: Tables, irq: Irq, a: Leg, orq: Orq, oldB: Leg, newOrq: Orq, newB: Leg, attempt: Attempt)
    requires LegsPaired(t) && TxnsPaired(t) && orq in t.attempts && irq == t.txns.right[orq]
    requires newOrq !in t.stack.orqs && newOrq != NULL && newB !in t.stack.legs && newB != NULL
    requires a in t.dialogs.left && t.dialogs.left[a] == oldB
    requires oldB in t.infos && newB !in t.infos
    ensures MoveCall(t, irq, orq, oldB, newOrq, newB, attempt) ==
      Done(Moved(t, irq, a, orq, oldB, newOrq, newB, attempt))
  {
    ReplaceTransactionShape(t, irq, orq, newOrq, newB);
    var st := t.stack.(orqs := t.stack.orqs[newOrq := OutTxn(Invite, newB)], legs := t.stack.legs + {newB});
    var o := ReplaceTransaction(t.(stack := st), irq, orq, newOrq);
    UpdateDialogShape(o.t.(attempts := MapInsert(o.t.attempts - {orq}, newOrq, attempt)), a, oldB, newB);
  }

  lemma MovedLegs(t: Tables, irq: Irq, a: Leg, orq: Orq, oldB: Leg, newOrq: Orq, newB: Leg, attempt: Attempt)
    requires LegsPaired(t) && newB !in t.stack.legs && newB != NULL
    requires a in t.dialogs.left && t.dialogs.left[a] == oldB
    requires oldB in t.infos && !t.infos[oldB].origination
    ensures LegReplaced(t, Moved(t, irq, a, orq, oldB, newOrq, newB, attempt), a, oldB, newB)
  {
    assert t.stack.legs + {newB} - {oldB} == t.stack.legs - {oldB} + {newB};
  }

  lemma MovedTxns(t: Tables, irq: Irq, a: Leg, orq: Orq, oldB: Leg, newOrq: Orq, newB: Leg, attempt: Attempt)
    requires TxnsPaired(t) && orq in t.attempts && irq == t.txns.right[orq]
    requires newOrq !in t.stack.orqs && newOrq != NULL && newB != oldB && oldB in t.infos
    requires forall i :: i in t.stack.irqs ==> t.stack.irqs[i].leg != oldB
    ensures InviteReplaced(t, Moved(t, irq, a, orq, oldB, newOrq, newB, attempt), irq, orq, oldB, newOrq, newB, attempt)
  {
    var u := Moved(t, irq, a, orq, oldB, newOrq, newB, attempt);
    assert u.attempts == t.attempts[newOrq := attempt] - {orq};
    assert u.stack.irqs == t.stack.irqs;
  }

  /** Through a crankback the incoming transaction stays paired with the newest outgoing one only. */
  lemma MoveCallEffect(t: Tables, irq: Irq, orq: Orq, oldB: Leg, newOrq: Orq, newB: Leg, attempt: Attempt)
    requires Inv(t)
    requires orq in t.attempts && t.stack.orqs[orq] == OutTxn(Invite, oldB) && oldB != NULL
    requires irq == t.txns.right[orq]
    requires newOrq !in t.stack.orqs && newOrq != NULL && newB !in t.stack.legs && newB != NULL
    ensures MoveCall(t, irq, orq, oldB, newOrq, newB, attempt).faults == {}
    ensures LegReplaced(t, MoveCall(t, irq, orq, oldB, newOrq, newB, attempt).t, t.stack.irqs[irq].leg, oldB, newB)
    ensures InviteReplaced(t, MoveCall(t, irq, orq, oldB, newOrq, newB, attempt).t, irq, orq, oldB, newOrq, newB,
      attempt)
  {
    var a := t.stack.irqs[irq].leg;
    MoveCallSetup(t, irq, orq, oldB, newB);
    MoveCallIsMoved(t, irq, a, orq, oldB, newOrq, newB, attempt);
    MovedLegs(t, irq, a, orq, oldB, newOrq, newB, attempt);
    MovedTxns(t, irq, a, orq, oldB, newOrq, newB, attempt);
  }

  lemma MoveCallKeepsInv(t: Tables, irq: Irq, orq: Orq, oldB: Leg, newOrq: Orq, newB: Leg, attempt: Attempt)
    requires Inv(t)
    requires orq in t.attempts && t.stack.orqs[orq] == OutTxn(Invite, oldB) && oldB != NULL
    requires irq == t.txns.right[orq]
    requires newOrq !in t.stack.orqs && newOrq != NULL && newB !in t.stack.legs && newB != NULL
    ensures MoveCall(t, irq, orq, oldB, newOrq, newB, attempt).faults == {}
    ensures Inv(MoveCall(t, irq, orq, oldB, newOrq, newB, attempt).t)
  {
    assert Linked(t, orq);
    var u := MoveCall(t, irq, orq, oldB, newOrq, newB, attempt).t;
    var a := t.stack.irqs[irq].leg;
    MoveCallEffect(t, irq, orq, oldB, newOrq, newB, attempt);
    LegReplacedLegs(t, u, a, oldB, newB);
    LegReplacedInfos(t, u, a, oldB, newB);
    InviteReplacedTxns(t, u, irq, orq, oldB, newOrq, newB, attempt);
    forall o | o in u.stack.orqs ensures Linked(u, o) {
      InviteReplacedLinked(t, u, irq, a, orq, oldB, newOrq, newB, attempt, o);
    }
    InviteReplacedDistinct(t, u, irq, orq, oldB, newOrq, newB, attempt);
  }

  lemma MoveCallSetup(t: Tables, irq: Irq, orq: Orq, oldB: Leg, newB: Leg)
    requires Inv(t)
    requires orq in t.attempts && t.stack.orqs[orq] == OutTxn(Invite, oldB) && oldB != NULL
    requires irq == t.txns.right[orq] && newB !in t.stack.legs
    ensures oldB in t.infos && !t.infos[oldB].origination && newB !in t.infos
    ensures t.stack.irqs[irq].leg in t.dialogs.left && t.dialogs.left[t.stack.irqs[irq].leg] == oldB
    ensures forall i :: i in t.stack.irqs ==> t.stack.irqs[i].leg != oldB
  {
    assert Linked(t, orq);
    assert InfoOk(t, oldB);
    DeadLegHasNoInfo(t, newB);
    forall i | i in t.stack.irqs ensures t.stack.irqs[i].leg != oldB {
      assert Linked(t, t.txns.left[i]);
    }
  }

  // ---- a forwarded in-dialog request ----

  lemma AddInDialogKeepsInv(t: Tables, irq: Irq, orq: Orq, other: Leg)
    requires Inv(t)
    requires irq !in t.stack.irqs && irq != NULL && orq !in t.stack.orqs && orq != NULL
    requires other in t.stack.legs
    ensures AddInDialog(t, irq, orq, other).faults == {}
    ensures Inv(AddInDialog(t, irq, orq, other).t)
  {
    var u := AddInDialog(t, irq, orq, other).t;
    forall l | l in u.infos ensures InfoOk(u, l) { assert InfoOk(t, l); }
    forall o | o in u.stack.orqs ensures Linked(u, o) {
      if o != orq { assert Linked(t, o); }
    }
    forall o, p | o in u.stack.orqs && p in u.stack.orqs ensures Distinct(u, o, p) {
      if o != orq && p != orq { assert Distinct(t, o, p); }
    }
  }
}
