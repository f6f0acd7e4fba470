/** Which carrier and trunk each termination route lookup chooses, and the closed form of that
    choice: a place in the endless repetition of a schedule. */
module RoutePlans {
  import opened Options
  import opened Cycles

  datatype Trunk = Trunk(address: string, port: nat, qty: nat)

  /** A trunk with quantity 0 gets one turn per round all the same. */
  function Weight(t: Trunk): (w: nat)
    ensures w >= 1
  {
    if t.qty == 0 then 1 else t.qty
  }

  function Weights(trunks: seq<Trunk>): (ws: seq<nat>)
    ensures |ws| == |trunks|
  {
    seq(|trunks|, i requires 0 <= i < |trunks| => Weight(trunks[i]))
  }

  /** One round: indices of trunks, each as often as its weight. */
  function Schedule(trunks: seq<Trunk>): (s: seq<int>)
    requires trunks != []
    ensures |s| > 0
  {
    var ws := Weights(trunks);
    StartStep(ws, 0);
    SpreadAt(ws, 0, 0);
    Spread(ws)
  }

  /** A trunk and how often it was picked in its current turn. */
  datatype Slot = Slot(trunk: Trunk, picked: nat)

  predicate Ended(s: Slot) { s.picked == s.trunk.qty }

  function Picked(s: Slot): Slot { s.(picked := if Ended(s) then 0 else s.picked + 1) }

  /** A carrier's route: `current` is the trunk whose turn it is. */
  datatype Route = Route(slots: seq<Slot>, charge: string, current: nat)

  function NewRoute(trunks: seq<Trunk>, charge: string): Route {
    Route(seq(|trunks|, i requires 0 <= i < |trunks| => Slot(trunks[i], 0)), charge, 0)
  }

  /** Only the current trunk is in the middle of a turn. */
  predicate RouteOk(r: Route) {
    && r.current < |r.slots|
    && r.slots[r.current].picked <= r.slots[r.current].trunk.qty
    && forall i :: 0 <= i < |r.slots| && i != r.current ==> r.slots[i].picked == 0
  }

  /** One pick: the trunk picked is the current one afterwards. */
  function After(r: Route): Route
    requires r.current < |r.slots|
  {
    var slots := r.slots[r.current := Picked(r.slots[r.current])];
    if !Ended(r.slots[r.current]) then r.(slots := slots)
    else
      var next := Wrap(r.current + 1, |slots|);
      r.(slots := slots[next := Picked(slots[next])], current := next)
  }

  function TrunksIn(slots: seq<Slot>): (ts: seq<Trunk>)
    ensures |ts| == |slots|
  {
    seq(|slots|, i requires 0 <= i < |slots| => slots[i].trunk)
  }

  function Round(r: Route): (s: seq<int>)
    requires RouteOk(r)
    ensures |s| > 0
  {
    Schedule(TrunksIn(r.slots))
  }

  /** How many turns of the current round are taken. A current trunk of quantity 0 has had its turn. */
  function Place(r: Route): nat
    requires RouteOk(r)
  {
    var here := r.slots[r.current];
    Start(Weights(TrunksIn(r.slots)), r.current) + if here.trunk.qty == 0 then 1 else here.picked
  }

  /** Where the `used`-th pick of trunk `c` stands in the round, and which trunk comes next. */
  lemma TurnOf(trunks: seq<Trunk>, c: nat, used: nat)
    requires c < |trunks| && used <= Weight(trunks[c])
    ensures var ws, s := Weights(trunks), Schedule(trunks);
      var at, next := Wrap(Start(ws, c) + used, |s|), Wrap(c + 1, |trunks|);
      && Start(ws, c) + used <= |s|
      && if used < Weight(trunks[c]) then at == Start(ws, c) + used && s[at] == c
         else at == Start(ws, next) && s[at] == next
  {
    var ws := Weights(trunks);
    StartStep(ws, c);
    StartBelow(ws, c + 1);
    if used < ws[c] {
      SpreadAt(ws, c, used);
    } else {
      SpreadAt(ws, Wrap(c + 1, |trunks|), 0);
    }
  }

  /** Counting picks per trunk comes to the same as taking the next place of the schedule. */
  lemma PickFollowsSchedule(r: Route)
    requires RouteOk(r)
    ensures var d, s := After(r), Round(r);
      && RouteOk(d) && TrunksIn(d.slots) == TrunksIn(r.slots) && d.charge == r.charge
      && Place(r) <= |s|
      && d.current == s[Wrap(Place(r), |s|)] && Place(d) == Wrap(Place(r), |s|) + 1
  {
    var here, trunks := r.slots[r.current], TrunksIn(r.slots);
    assert TrunksIn(After(r).slots) == trunks;
    TurnOf(trunks, r.current, if here.trunk.qty == 0 then 1 else here.picked);
  }

  /** A new route starts at the beginning of its schedule exactly when its first trunk has a
      quantity of at least 1; otherwise that trunk misses its first turn. */
  lemma NewRouteStarts(trunks: seq<Trunk>, charge: string)
    requires trunks != []
    ensures var r := NewRoute(trunks, charge);
      RouteOk(r) && TrunksIn(r.slots) == trunks && Place(r) == if trunks[0].qty == 0 then 1 else 0
  {
    assert TrunksIn(NewRoute(trunks, charge).slots) == trunks;
    StartStep(Weights(trunks), 0);
  }

  // ---- the configuration ----

  /** `names` are the keys of `routes` in the order of the ordered map; `carriers` lists each
      carrier as often as its quantity; `cursor` is the next place in that list. */
  datatype Config = Config(carriers: seq<string>, names: seq<string>, routes: map<string, Route>, cursor: nat)

  predicate Before(a: string, b: string) {
    b != [] && (a == [] || a[0] < b[0] || (a[0] == b[0] && Before(a[1..], b[1..])))
  }

  lemma {:induction false} BeforeTotal(a: string, b: string)
    ensures !(Before(a, b) && Before(b, a))
    ensures a == b <==> !Before(a, b) && !Before(b, a)
  {
    if a != [] && b != [] {
      BeforeTotal(a[1..], b[1..]);
      assert a == [a[0]] + a[1..] && b == [b[0]] + b[1..];
    }
  }

  lemma {:induction false} BeforeTransitive(a: string, b: string, c: string)
    requires Before(a, b) && Before(b, c)
    ensures Before(a, c)
  {
    if a != [] && a[0] == b[0] && b[0] == c[0] { BeforeTransitive(a[1..], b[1..], c[1..]); }
  }

  ghost predicate Ordered(names: seq<string>) {
    forall i, j :: 0 <= i < j < |names| ==> Before(names[i], names[j])
  }

  function Insert(names: seq<string>, n: string): seq<string> {
    if names == [] || Before(n, names[0]) then [n] + names
    else if names[0] == n then names
    else [names[0]] + Insert(names[1..], n)
  }

  lemma {:induction false} InsertHolds(names: seq<string>, n: string, m: string)
    ensures m in Insert(names, n) <==> m in names || m == n
  {
    if names != [] && !Before(n, names[0]) && names[0] != n {
      InsertHolds(names[1..], n, m);
      assert names == [names[0]] + names[1..];
    }
  }

  lemma {:induction false} InsertKeepsOrder(names: seq<string>, n: string)
    requires Ordered(names)
    ensures Ordered(Insert(names, n))
  {
    var r := Insert(names, n);
    if names != [] {
      BeforeTotal(names[0], n);
      var tail := names[1..];
      if Before(n, names[0]) {
        forall j | 1 <= j < |r| ensures Before(n, r[j]) {
          if j > 1 { BeforeTransitive(n, names[0], names[j - 1]); }
        }
        assert r[1..] == names;
      } else if names[0] != n {
        InsertKeepsOrder(tail, n);
        forall j | 1 <= j < |r| ensures Before(r[0], r[j]) {
          InsertHolds(tail, n, r[j]);
          assert r[j] == Insert(tail, n)[j - 1];
        }
      }
    }
  }

  /** What every lookup relies on. */
  ghost predicate Ok(c: Config) {
    && (forall n :: n in c.names <==> n in c.routes)
    && (forall n :: n in c.routes ==> RouteOk(c.routes[n]))
    && (forall i :: 0 <= i < |c.carriers| ==> c.carriers[i] in c.routes)
    && (c.carriers != [] ==> c.cursor < |c.carriers|)
  }

  // ---- loading ----

  datatype Address = Address(text: string, port: nat, qty: nat, inactive: bool)
  datatype Carrier = Carrier(name: string, active: bool, qty: nat, charge: string, addresses: seq<Address>)

  function TrunksOf(addresses: seq<Address>): seq<Trunk> {
    if addresses == [] then []
    else
      var a := addresses[|addresses| - 1];
      TrunksOf(addresses[..|addresses| - 1]) + if a.inactive then [] else [Trunk(a.text, a.port, a.qty)]
  }

  function Copies(name: string, n: nat): (r: seq<string>)
    ensures forall i :: 0 <= i < |r| ==> r[i] == name
    ensures |r| == n
  {
    if n == 0 then [] else Copies(name, n - 1) + [name]
  }

  /** The first description of a name decides its route; each adds to the list of carriers. */
  function LoadOne(c: Config, e: Carrier): Config {
    var trunks := TrunksOf(e.addresses);
    if !e.active || trunks == [] then c
    else Config(c.carriers + Copies(e.name, e.qty), Insert(c.names, e.name),
                if e.name in c.routes then c.routes else c.routes[e.name := NewRoute(trunks, e.charge)], c.cursor)
  }

  function Loaded(entries: seq<Carrier>): Config {
    if entries == [] then Config([], [], map[], 0)
    else LoadOne(Loaded(entries[..|entries| - 1]), entries[|entries| - 1])
  }

  /** Every name in the carrier list has a route with at least one trunk, for every file. */
  lemma {:induction false} LoadedOk(entries: seq<Carrier>)
    ensures Ok(Loaded(entries)) && Ordered(Loaded(entries).names) && Loaded(entries).cursor == 0
    ensures forall n :: n in Loaded(entries).routes ==>
      var r := Loaded(entries).routes[n]; r == NewRoute(TrunksIn(r.slots), r.charge)
  {
    if entries != [] {
      var c, e := Loaded(entries[..|entries| - 1]), entries[|entries| - 1];
      LoadedOk(entries[..|entries| - 1]);
      InsertKeepsOrder(c.names, e.name);
      if TrunksOf(e.addresses) != [] { NewRouteStarts(TrunksOf(e.addresses), e.charge); }
      forall n { InsertHolds(c.names, e.name, n); }
    }
  }

  // ---- lookups ----

  datatype Call = Next | Alternate(failed: string) | Named(carrier: string)

  /** `index` names a trunk of the carrier; `byCursor` tells which lookups went by the cursor. */
  datatype Pick = Pick(carrier: string, index: int, byCursor: bool)

  function FirstOther(names: seq<string>, failed: string): Option<string> {
    if names == [] then None
    else if names[0] != failed then Some(names[0])
    else FirstOther(names[1..], failed)
  }

  /** The carrier chosen by a call and whether the cursor chose it. */
  function Choice(c: Config, call: Call): Option<(string, bool)> {
    match call
    case Named(n) => if n in c.routes then Some((n, false)) else None
    case Alternate(failed) =>
      (match FirstOther(c.names, failed)
       case Some(n) => Some((n, false))
       case None => AtCursor(c))
    case Next => AtCursor(c)
  }

  function AtCursor(c: Config): Option<(string, bool)> {
    if c.cursor < |c.carriers| then Some((c.carriers[c.cursor], true)) else None
  }

  function Moved(c: Config): nat {
    if c.cursor + 1 >= |c.carriers| then 0 else c.cursor + 1
  }

  function Lookup(c: Config, call: Call): (Config, Option<Pick>) {
    match Choice(c, call)
    case Some((n, byCursor)) =>
      if n in c.routes && c.routes[n].current < |c.routes[n].slots| then
        var r := After(c.routes[n]);
        (c.(routes := c.routes[n := r], cursor := if byCursor then Moved(c) else c.cursor),
         Some(Pick(n, r.current, byCursor)))
      else (c, None)
    case None => (c, None)
  }

  lemma {:induction false} FirstOtherFound(names: seq<string>, failed: string)
    ensures FirstOther(names, failed) == None ==> forall i :: 0 <= i < |names| ==> names[i] == failed
    ensures FirstOther(names, failed).Some? ==>
      FirstOther(names, failed).value in names && FirstOther(names, failed).value != failed
  {
    if names != [] {
      FirstOtherFound(names[1..], failed);
      assert forall i :: 0 < i < |names| ==> names[i] == names[1..][i - 1];
    }
  }

  lemma {:induction false} FirstOtherIsLeast(names: seq<string>, failed: string, m: string)
    requires Ordered(names) && m in names && m != failed
    ensures var n := FirstOther(names, failed); n.Some? && (n.value == m || Before(n.value, m))
  {
    if names[0] == failed {
      assert m in names[1..];
      FirstOtherIsLeast(names[1..], failed, m);
    } else {
      var k :| 0 <= k < |names| && names[k] == m;
      assert k > 0 ==> Before(names[0], names[k]);
    }
  }

  /** Whoever is chosen has a route. */
  lemma ChoiceKnown(c: Config, call: Call)
    requires Ok(c)
    ensures Choice(c, call).Some? ==> Choice(c, call).value.0 in c.routes
  {
    if call.Alternate? { FirstOtherFound(c.names, call.failed); }
  }

  /** A lookup keeps the configuration usable, its trunks and carriers, and answers a trunk of a
      carrier it knows; the assertion on a missing route is never reached. */
  lemma LookupKeepsOk(c: Config, call: Call)
    requires Ok(c)
    ensures var (d, p) := Lookup(c, call);
      && Ok(d) && d.carriers == c.carriers && d.names == c.names
      && (p == None <==> Choice(c, call) == None)
      && (p.Some? ==> p.value.carrier in c.routes && 0 <= p.value.index < |c.routes[p.value.carrier].slots|)
  {
    ChoiceKnown(c, call);
    if Choice(c, call).Some? { PickFollowsSchedule(c.routes[Choice(c, call).value.0]); }
  }

  /** The alternate lookup answers with the failed carrier exactly when it is the only one with a
      route and the list is not empty; otherwise it takes the first other name in order, and only
      in that one case does it move the cursor. */
  lemma AlternateAvoidsFailed(c: Config, failed: string)
    requires Ok(c) && Ordered(c.names)
    ensures var (d, p) := Lookup(c, Alternate(failed));
      var lone := forall n :: n in c.routes ==> n == failed;
      && ((p.Some? && p.value.carrier == failed) <==> lone && c.carriers != [])
      && (!lone ==> p.Some? && !p.value.byCursor && d.cursor == c.cursor)
      && (!lone ==> forall m :: m in c.routes && m != failed && m != p.value.carrier ==> Before(p.value.carrier, m))
      && (lone ==> (d, p) == Lookup(c, Next))
  {
    FirstOtherFound(c.names, failed);
    LookupKeepsOk(c, Alternate(failed));
    if FirstOther(c.names, failed) == None {
      assert forall n :: n in c.routes ==> n in c.names;
    } else {
      var n := FirstOther(c.names, failed).value;
      assert n in c.routes;
      forall m | m in c.routes && m != failed && m != n ensures Before(n, m) {
        FirstOtherIsLeast(c.names, failed, m);
      }
    }
  }

  // ---- runs ----

  function Picks(c: Config, calls: seq<Call>): seq<Pick>
    decreases calls
  {
    if calls == [] then []
    else
      var (d, p) := Lookup(c, calls[0]);
      (if p.Some? then [p.value] else []) + Picks(d, calls[1..])
  }

  function TrunksFor(picks: seq<Pick>, carrier: string): seq<int> {
    if picks == [] then []
    else (if picks[0].carrier == carrier then [picks[0].index] else []) + TrunksFor(picks[1..], carrier)
  }

  function CarriersByCursor(picks: seq<Pick>): seq<string> {
    if picks == [] then []
    else (if picks[0].byCursor then [picks[0].carrier] else []) + CarriersByCursor(picks[1..])
  }

  /** However the three lookups are mixed, the trunks handed out for a carrier are consecutive
      places of the endless repetition of its schedule. */
  lemma RunFollowsSchedule(c: Config, calls: seq<Call>, n: string)
    requires Ok(c) && n in c.routes
    ensures var r := c.routes[n]; var got := TrunksFor(Picks(c, calls), n);
      got == Window(Round(r), Place(r), |got|)
  {
    RunWalks(c, calls, n);
    PickFollowsSchedule(c.routes[n]);
    WalkIsWindow(Round(c.routes[n]), Place(c.routes[n]), TrunksFor(Picks(c, calls), n));
  }

  lemma {:induction false} RunWalks(c: Config, calls: seq<Call>, n: string)
    requires Ok(c) && n in c.routes
    ensures Walks(Round(c.routes[n]), Place(c.routes[n]), TrunksFor(Picks(c, calls), n))
    decreases calls
  {
    if calls != [] {
      var (d, p) := Lookup(c, calls[0]);
      LookupKeepsOk(c, calls[0]);
      RouteStep(c, calls[0], n);
      RunWalks(d, calls[1..], n);
      TrunksForStep(c, calls, n);
      var rest := TrunksFor(Picks(d, calls[1..]), n);
      if p.Some? && p.value.carrier == n { PickWalks(c.routes[n], rest); }
    }
  }

  lemma PickWalks(r: Route, rest: seq<int>)
    requires RouteOk(r) && RouteOk(After(r)) && Walks(Round(After(r)), Place(After(r)), rest)
    ensures Walks(Round(r), Place(r), [After(r).current] + rest)
  {
    PickFollowsSchedule(r);
    WalkOn(Round(r), Place(r), After(r).current, rest);
  }

  lemma TrunksForStep(c: Config, calls: seq<Call>, n: string)
    requires calls != []
    ensures var (d, p) := Lookup(c, calls[0]); var rest := TrunksFor(Picks(d, calls[1..]), n);
      TrunksFor(Picks(c, calls), n) == if p.Some? && p.value.carrier == n then [p.value.index] + rest else rest
  {
    var (d, p) := Lookup(c, calls[0]);
    var rest := Picks(d, calls[1..]);
    assert Picks(c, calls) == (if p.Some? then [p.value] else []) + rest;
    if p.Some? { assert ([p.value] + rest)[1..] == rest; } else { assert [] + rest == rest; }
  }

  lemma RouteStep(c: Config, call: Call, n: string)
    requires Ok(c) && n in c.routes
    ensures var (d, p) := Lookup(c, call); var r := c.routes[n];
      && n in d.routes
      && if p.Some? && p.value.carrier == n then d.routes[n] == After(r) && p.value.index == After(r).current
         else d.routes[n] == r
  {
  }

  /** The carriers chosen through the cursor go round the carrier list. */
  lemma RunFollowsCarriers(c: Config, calls: seq<Call>)
    requires Ok(c) && c.carriers != []
    ensures var got := CarriersByCursor(Picks(c, calls));
      got == Window(c.carriers, c.cursor, |got|)
  {
    RunWalksCarriers(c, calls);
    WalkIsWindow(c.carriers, c.cursor, CarriersByCursor(Picks(c, calls)));
  }

  lemma {:induction false} RunWalksCarriers(c: Config, calls: seq<Call>)
    requires Ok(c) && c.carriers != []
    ensures Walks(c.carriers, c.cursor, CarriersByCursor(Picks(c, calls)))
    decreases calls
  {
    if calls != [] {
      var (d, p) := Lookup(c, calls[0]);
      LookupKeepsOk(c, calls[0]);
      CursorStep(c, calls[0]);
      RunWalksCarriers(d, calls[1..]);
      CarriersByCursorStep(c, calls);
      var rest := CarriersByCursor(Picks(d, calls[1..]));
      if p.Some? && p.value.byCursor { CursorWalks(c.carriers, c.cursor, p.value.carrier, rest); }
    }
  }

  lemma CursorWalks(carriers: seq<string>, cursor: nat, carrier: string, rest: seq<string>)
    requires cursor < |carriers| && carrier == carriers[cursor]
    requires Walks(carriers, if cursor + 1 >= |carriers| then 0 else cursor + 1, rest)
    ensures Walks(carriers, cursor, [carrier] + rest)
  {
    WalksWrap(carriers, rest);
    WalkOn(carriers, cursor, carrier, rest);
  }

  lemma CarriersByCursorStep(c: Config, calls: seq<Call>)
    requires calls != []
    ensures var (d, p) := Lookup(c, calls[0]); var rest := CarriersByCursor(Picks(d, calls[1..]));
      CarriersByCursor(Picks(c, calls)) == if p.Some? && p.value.byCursor then [p.value.carrier] + rest else rest
  {
    var (d, p) := Lookup(c, calls[0]);
    var rest := Picks(d, calls[1..]);
    assert Picks(c, calls) == (if p.Some? then [p.value] else []) + rest;
    if p.Some? { assert ([p.value] + rest)[1..] == rest; } else { assert [] + rest == rest; }
  }

  lemma CursorStep(c: Config, call: Call)
    ensures var (d, p) := Lookup(c, call);
      if p.Some? && p.value.byCursor
      then c.cursor < |c.carriers| && p.value.carrier == c.carriers[c.cursor] && d.cursor == Moved(c)
      else d.cursor == c.cursor
  {
  }

  /** Any stretch of cursor lookups as long as the carrier list chooses each carrier exactly as
      often as the list holds it. */
  lemma CarriersAreFair(c: Config, calls: seq<Call>, from: nat)
    requires Ok(c) && c.carriers != []
    requires from + |c.carriers| <= |CarriersByCursor(Picks(c, calls))|
    ensures multiset(CarriersByCursor(Picks(c, calls))[from..from + |c.carriers|]) == multiset(c.carriers)
  {
    RunWalksCarriers(c, calls);
    EveryRound(c.carriers, c.cursor, CarriersByCursor(Picks(c, calls)), from);
  }

  /** The trunks a freshly loaded file gives to carrier `n`. */
  function TrunksAt(entries: seq<Carrier>, n: string): seq<Trunk>
    requires n in Loaded(entries).routes
  {
    TrunksIn(Loaded(entries).routes[n].slots)
  }

  lemma FreshRunFollowsSchedule(entries: seq<Carrier>, calls: seq<Call>, n: string)
    requires n in Loaded(entries).routes
    ensures var trunks := TrunksAt(entries, n); var got := TrunksFor(Picks(Loaded(entries), calls), n);
      && trunks != []
      && got == Window(Schedule(trunks), if trunks[0].qty == 0 then 1 else 0, |got|)
  {
    LoadedOk(entries);
    NewRouteStarts(TrunksAt(entries, n), Loaded(entries).routes[n].charge);
    RunFollowsSchedule(Loaded(entries), calls, n);
  }

  /** Any stretch of picks for one carrier as long as its round uses every trunk exactly as often
      as its weight, which is its quantity when that is at least 1. */
  lemma RoundIsFair(c: Config, calls: seq<Call>, n: string, from: nat, i: nat)
    requires Ok(c) && n in c.routes && i < |c.routes[n].slots|
    requires from + |Round(c.routes[n])| <= |TrunksFor(Picks(c, calls), n)|
    ensures multiset(TrunksFor(Picks(c, calls), n)[from..from + |Round(c.routes[n])|])[i] ==
      Weight(c.routes[n].slots[i].trunk)
  {
    RunWalks(c, calls, n);
    PickFollowsSchedule(c.routes[n]);
    ScheduleRound(TrunksIn(c.routes[n].slots), Place(c.routes[n]), TrunksFor(Picks(c, calls), n), from, i);
  }

  lemma ScheduleRound(trunks: seq<Trunk>, p: nat, got: seq<int>, from: nat, i: nat)
    requires i < |trunks| && from + |Schedule(trunks)| <= |got|
    requires p <= |Schedule(trunks)| && Walks(Schedule(trunks), p, got)
    ensures multiset(got[from..from + |Schedule(trunks)|])[i] == Weight(trunks[i])
  {
    var s := Schedule(trunks);
    assert multiset(s)[i] == Weight(trunks[i]) by { SpreadCount(Weights(trunks), i); }
    assert multiset(got[from..from + |s|]) == multiset(s) by { EveryRound(s, p, got, from); }
  }
}
