/** Termination routes as the configuration keeps them: per trunk a count of picks in its current
    turn, per carrier the trunk whose turn it is, and a cursor into the list of carriers. */
module Routes {
  import opened Cycles
  import opened Decimal
  import opened RoutePlans

  const DEFAULT_PORT: nat := 5060

  function Destination(t: Trunk): string {
    if t.port == DEFAULT_PORT then t.address else t.address + ":" + Plain(t.port)
  }

  class TerminationRoute {
    var slots: seq<Slot>
    var current: nat
    const charge: string

    function State(): Route
      reads this
    {
      Route(slots, charge, current)
    }

    constructor (trunks: seq<Trunk>, charge: string)
      ensures State() == NewRoute(trunks, charge)
    {
      slots := seq(|trunks|, i requires 0 <= i < |trunks| => Slot(trunks[i], 0));
      current := 0;
      this.charge := charge;
    }

    /** Whether the trunk's turn is over; if not, one more pick of it. */
    method HaveAdvancedToEnd(i: nat) returns (ended: bool)
      requires i < |slots|
      modifies this`slots
      ensures ended <==> old(Ended(slots[i]))
      ensures slots == old(slots)[i := Picked(old(slots[i]))]
    {
      var s := slots[i];
      ended := s.picked == s.trunk.qty;
      slots := slots[i := s.(picked := if ended then 0 else s.picked + 1)];
    }

    method AdvanceTrunk()
      modifies this`current
      ensures current == Wrap(old(current) + 1, |slots|)
    {
      current := current + 1;
      if current >= |slots| { current := 0; }
    }

    /** Hands out the trunk at the next place of the schedule. */
    method NextTrunk() returns (trunk: string, chargeNumber: string)
      requires RouteOk(State())
      modifies this
      ensures State() == After(old(State())) && RouteOk(State())
      ensures Gives(old(State()), trunk, chargeNumber)
      ensures current == old(Round(State())[Wrap(Place(State()), |Round(State())|)])
    {
      PickFollowsSchedule(State());
      var ended := HaveAdvancedToEnd(current);
      if ended {
        AdvanceTrunk();
        var _ := HaveAdvancedToEnd(current);
      }
      trunk := Destination(slots[current].trunk);
      chargeNumber := charge;
    }
  }

  /** The address and charge number of the trunk picked next. */
  ghost predicate Gives(r: Route, destination: string, chargeNumber: string)
    requires r.current < |r.slots|
  {
    var k := After(r).current;
    k < |r.slots| && destination == Destination(r.slots[k].trunk) && chargeNumber == r.charge
  }

  class TerminationRoutes {
    var carriers: seq<string>
    var names: seq<string>
    var routes: map<string, TerminationRoute>
    var cursor: nat
    ghost var plans: map<string, Route>    // the value of each route object

    /** Every name has a route object of its own, whose value is recorded. */
    ghost predicate Valid()
      reads this, routes.Values
    {
      && routes.Keys == plans.Keys
      && (forall n :: n in routes ==> routes[n].State() == plans[n])
      && (forall n, m :: n in routes && m in routes && n != m ==> routes[n] != routes[m])
    }

    ghost function View(): Config
      reads this
    {
      Config(carriers, names, plans, cursor)
    }

    /** Reads the carriers of a configuration file. */
    constructor (entries: seq<Carrier>)
      ensures Valid() && View() == Loaded(entries) && Ok(View())
    {
      carriers, names, routes, cursor, plans := [], [], map[], 0, map[];
      new;
      var i := 0;
      while i < |entries|
        invariant 0 <= i <= |entries|
        invariant fresh(routes.Values)
        invariant Valid() && View() == Loaded(entries[..i])
      {
        var e := entries[i];
        assert entries[..i + 1][..i] == entries[..i];
        if e.active {
          var trunks := ActiveTrunks(e.addresses);
          if trunks != [] { Add(e, trunks); }
        }
        i := i + 1;
      }
      assert entries[..i] == entries;
      LoadedOk(entries);
    }

    method Add(e: Carrier, trunks: seq<Trunk>)
      requires Valid() && e.active && trunks == TrunksOf(e.addresses) && trunks != []
      modifies this
      ensures Valid() && View() == LoadOne(old(View()), e)
      ensures fresh(routes.Values - old(routes.Values))
    {
      if e.name !in routes {
        var t := new TerminationRoute(trunks, e.charge);
        routes := routes[e.name := t];
        plans := plans[e.name := NewRoute(trunks, e.charge)];
      }
      names := Insert(names, e.name);
      PushCarrier(e.name, e.qty);
    }

    method PushCarrier(name: string, qty: nat)
      modifies this`carriers
      ensures carriers == old(carriers) + Copies(name, qty)
    {
      var left := qty;
      while left > 0
        invariant 0 <= left <= qty
        invariant carriers == old(carriers) + Copies(name, qty - left)
      {

        carriers := carriers + [name];
        left := left - 1;
      }
    }

    /** One pick of a carrier known to have a route. */
    method HandOut(n: string) returns (destination: string, chargeNumber: string)
      requires Valid() && n in routes && RouteOk(plans[n])
      modifies this`plans, routes.Values
      ensures Valid()
      ensures plans == old(plans)[n := After(old(plans[n]))]
      ensures Gives(old(plans[n]), destination, chargeNumber)
    {
      var route := routes[n];
      destination, chargeNumber := route.NextTrunk();
      plans := plans[n := route.State()];
    }

    method Next() returns (found: bool, destination: string, carrier: string, chargeNumber: string)
      requires Valid() && Ok(View())
      modifies this, routes.Values
      ensures Valid() && routes == old(routes)
      ensures View() == Lookup(old(View()), RoutePlans.Next).0
      ensures Answers(old(View()), RoutePlans.Next, found, destination, carrier, chargeNumber)
    {
      found, destination, carrier, chargeNumber := false, "", "", "";
      if carriers == [] { return; }
      carrier := carriers[cursor];
      destination, chargeNumber := HandOut(carrier);
      AdvanceCursor();
      found := true;
    }

    method AdvanceCursor()
      modifies this`cursor
      ensures cursor == Moved(old(View()))
    {
      cursor := cursor + 1;
      if cursor >= |carriers| { cursor := 0; }
    }

    method Alternate(failed: string) returns (found: bool, destination: string, carrier: string, chargeNumber: string)
      requires Valid() && Ok(View())
      modifies this, routes.Values
      ensures Valid() && routes == old(routes)
      ensures View() == Lookup(old(View()), RoutePlans.Alternate(failed)).0
      ensures Answers(old(View()), RoutePlans.Alternate(failed), found, destination, carrier, chargeNumber)
    {
      var i := 0;
      while i < |names|
        invariant 0 <= i <= |names|
        invariant FirstOther(names, failed) == FirstOther(names[i..], failed)
      {
        carrier := names[i];
        if carrier != failed {
          assert carrier in names;
          destination, chargeNumber := HandOut(carrier);
          found := true;
          return;
        }
        assert names[i..][1..] == names[i + 1..];
        i := i + 1;
      }
      found, destination, carrier, chargeNumber := Next();
    }

    method Named(carrier: string) returns (found: bool, destination: string, chargeNumber: string)
      requires Valid() && Ok(View())
      modifies this, routes.Values
      ensures Valid() && routes == old(routes)
      ensures View() == Lookup(old(View()), RoutePlans.Named(carrier)).0
      ensures Answers(old(View()), RoutePlans.Named(carrier), found, destination, carrier, chargeNumber)
    {
      found, destination, chargeNumber := false, "", "";
      if carrier !in routes { return; }
      destination, chargeNumber := HandOut(carrier);
      found := true;
    }
  }

  /** A caller is given what the closed form picks: the carrier, its trunk's address, its charge number. */
  ghost predicate Answers(c: Config, call: Call, found: bool, destination: string, carrier: string,
      chargeNumber: string) {
    var p := Lookup(c, call).1;
    && found == p.Some?
    && (found ==>
          && carrier == p.value.carrier && carrier in c.routes
          && c.routes[carrier].current < |c.routes[carrier].slots|
          && Gives(c.routes[carrier], destination, chargeNumber))
  }

  method ActiveTrunks(addresses: seq<Address>) returns (trunks: seq<Trunk>)
    ensures trunks == TrunksOf(addresses)
  {
    trunks := [];
    var i := 0;
    while i < |addresses|
      invariant 0 <= i <= |addresses|
      invariant trunks == TrunksOf(addresses[..i])
    {
      var a := addresses[i];
      assert addresses[..i + 1][..i] == addresses[..i];
      if !a.inactive { trunks := trunks + [Trunk(a.text, a.port, a.qty)]; }
      i := i + 1;
    }
    assert addresses[..i] == addresses;
  }
}
