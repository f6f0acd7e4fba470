/** Which carriers and trunks a configuration file gives, told from the file. */
module RouteFiles {
  import opened Decimal
  import opened RoutePlans
  import opened Routes

  /** An entry that can be routed to: its carrier is active and one of its addresses is not inactive. */
  ghost predicate Routable(e: Carrier) {
    e.active && exists i :: 0 <= i < |e.addresses| && !e.addresses[i].inactive
  }

  /** `idx` lists the addresses that are not inactive, in order. */
  ghost predicate Selects(addresses: seq<Address>, idx: seq<int>) {
    && Listed(addresses, idx)
    && (forall j, k :: 0 <= j < k < |idx| ==> idx[j] < idx[k])
    && (forall i :: 0 <= i < |addresses| && !addresses[i].inactive ==> i in idx)
  }

  ghost predicate Listed(addresses: seq<Address>, idx: seq<int>) {
    forall j :: 0 <= j < |idx| ==> 0 <= idx[j] < |addresses| && !addresses[idx[j]].inactive
  }

  /** The trunks are those addresses, one for one. */
  ghost predicate Mirrors(trunks: seq<Trunk>, addresses: seq<Address>, idx: seq<int>)
    requires Listed(addresses, idx)
  {
    && |trunks| == |idx|
    && forall j :: 0 <= j < |idx| ==>
         var a := addresses[idx[j]];
         trunks[j].address == a.text && trunks[j].port == a.port && trunks[j].qty == a.qty
  }

  lemma {:induction false} TrunksMirror(addresses: seq<Address>) returns (idx: seq<int>)
    ensures Selects(addresses, idx) && Mirrors(TrunksOf(addresses), addresses, idx)
    decreases |addresses|
  {
    if addresses == [] {
      idx := [];
    } else {
      var front, a := addresses[..|addresses| - 1], addresses[|addresses| - 1];
      var before := TrunksMirror(front);
      idx := if a.inactive then before else before + [|front|];
      assert front + [a] == addresses;
      SelectsMore(front, a, before);
      MirrorsMore(TrunksOf(front), front, a, before);
    }
  }

  lemma MirrorsMore(trunks: seq<Trunk>, front: seq<Address>, a: Address, idx: seq<int>)
    requires Listed(front, idx) && Mirrors(trunks, front, idx)
    ensures Listed(front + [a], if a.inactive then idx else idx + [|front|])
    ensures Mirrors(trunks + if a.inactive then [] else [Trunk(a.text, a.port, a.qty)],
                    front + [a], if a.inactive then idx else idx + [|front|])
  {
    assert forall j :: 0 <= j < |idx| ==> (front + [a])[idx[j]] == front[idx[j]];
  }

  lemma SelectsMore(front: seq<Address>, a: Address, idx: seq<int>)
    requires Selects(front, idx)
    ensures Selects(front + [a], if a.inactive then idx else idx + [|front|])
  {
    var more := if a.inactive then idx else idx + [|front|];
    forall i | 0 <= i < |front + [a]| && !(front + [a])[i].inactive ensures i in more {
      if i < |front| {
        assert i in idx;
        var j :| 0 <= j < |idx| && idx[j] == i;
        assert more[j] == i;
      } else {
        assert more[|more| - 1] == i;
      }
    }
  }

  lemma RoutableIff(e: Carrier)
    ensures Routable(e) <==> e.active && TrunksOf(e.addresses) != []
  {
    var idx := TrunksMirror(e.addresses);
    if idx != [] {
      assert !e.addresses[idx[0]].inactive;
    }
  }

  // ---- names ----

  /** Entry `j` is the first that gives carrier `n` a route. */
  ghost predicate FirstOf(entries: seq<Carrier>, n: string, j: nat) {
    && j < |entries| && entries[j].name == n && Routable(entries[j])
    && forall i :: 0 <= i < j && entries[i].name == n ==> !Routable(entries[i])
  }

  /** A route is there with the first such entry's charge number and its addresses as trunks. */
  ghost predicate RouteFrom(r: Route, e: Carrier) {
    && r.charge == e.charge && r.current == 0
    && (forall j :: 0 <= j < |r.slots| ==> r.slots[j].picked == 0)
    && exists idx :: Selects(e.addresses, idx) && Mirrors(TrunksIn(r.slots), e.addresses, idx)
  }

  lemma NewRouteFrom(e: Carrier)
    ensures RouteFrom(NewRoute(TrunksOf(e.addresses), e.charge), e)
  {
    var idx := TrunksMirror(e.addresses);
    var r := NewRoute(TrunksOf(e.addresses), e.charge);
    assert TrunksIn(r.slots) == TrunksOf(e.addresses);
  }

  /** A carrier has a route if and only if some entry of its name can be routed to. */
  lemma {:induction false} LoadedNames(entries: seq<Carrier>, n: string)
    ensures n in Loaded(entries).routes <==>
      exists i :: 0 <= i < |entries| && entries[i].name == n && Routable(entries[i])
  {
    if entries != [] {
      var front, e := entries[..|entries| - 1], entries[|entries| - 1];
      LoadedNames(front, n);
      RoutableIff(e);
      if n in Loaded(front).routes {
        var i :| 0 <= i < |front| && front[i].name == n && Routable(front[i]);
        assert entries[i] == front[i];
      } else {
        forall i | 0 <= i < |entries| - 1 && entries[i].name == n ensures !Routable(entries[i]) {
          assert entries[i] == front[i];
        }
        assert e == entries[|entries| - 1];
      }
    }
  }

  /** And the first of them decides its trunks, in order, and its charge number. */
  lemma {:induction false} LoadedTrunks(entries: seq<Carrier>, n: string, j: nat)
    requires FirstOf(entries, n, j)
    ensures n in Loaded(entries).routes && RouteFrom(Loaded(entries).routes[n], entries[j])
  {
    var front, e := entries[..|entries| - 1], entries[|entries| - 1];
    RoutableIff(e);
    if j < |front| {
      FirstOfFront(entries, n, j);
      LoadedTrunks(front, n, j);
      LoadOneKeeps(Loaded(front), e, n);
    } else {
      NotBefore(entries, n, j);
      LoadedNames(front, n);
      NewRouteFrom(e);
      LoadOneAdds(Loaded(front), e);
    }
  }

  lemma FirstOfFront(entries: seq<Carrier>, n: string, j: nat)
    requires FirstOf(entries, n, j) && j < |entries| - 1
    ensures FirstOf(entries[..|entries| - 1], n, j) && entries[..|entries| - 1][j] == entries[j]
  {
    var front := entries[..|entries| - 1];
    forall i | 0 <= i < j && front[i].name == n ensures !Routable(front[i]) { assert entries[i] == front[i]; }
  }

  lemma NotBefore(entries: seq<Carrier>, n: string, j: nat)
    requires FirstOf(entries, n, j) && j == |entries| - 1
    ensures !exists i :: 0 <= i < j && entries[..j][i].name == n && Routable(entries[..j][i])
  {
    forall i | 0 <= i < j && entries[..j][i].name == n ensures !Routable(entries[..j][i]) {
      assert entries[i] == entries[..j][i];
    }
  }

  lemma LoadOneKeeps(c: Config, e: Carrier, n: string)
    requires n in c.routes
    ensures n in LoadOne(c, e).routes && LoadOne(c, e).routes[n] == c.routes[n]
  {
  }

  lemma LoadOneAdds(c: Config, e: Carrier)
    requires e.name !in c.routes && e.active && TrunksOf(e.addresses) != []
    ensures e.name in LoadOne(c, e).routes
    ensures LoadOne(c, e).routes[e.name] == NewRoute(TrunksOf(e.addresses), e.charge)
  {
  }

  // ---- the carrier list ----

  /** The quantities of the entries of carrier `n` that can be routed to, added up. */
  ghost function Quantity(entries: seq<Carrier>, n: string): nat {
    if entries == [] then 0
    else
      var e := entries[|entries| - 1];
      Quantity(entries[..|entries| - 1], n) + if e.name == n && Routable(e) then e.qty else 0
  }

  lemma {:induction false} CopiesCount(name: string, k: nat, n: string)
    ensures multiset(Copies(name, k))[n] == if name == n then k else 0
  {
    if k > 0 { CopiesCount(name, k - 1, n); }
  }

  /** The list holds each carrier as often as its quantities say. */
  lemma {:induction false} LoadedCarriers(entries: seq<Carrier>, n: string)
    ensures multiset(Loaded(entries).carriers)[n] == Quantity(entries, n)
  {
    if entries != [] {
      var front, e := entries[..|entries| - 1], entries[|entries| - 1];
      LoadedCarriers(front, n);
      RoutableIff(e);
      CopiesCount(e.name, e.qty, n);
      assert Routable(e) ==> Loaded(entries).carriers == Loaded(front).carriers + Copies(e.name, e.qty);
    }
  }

  // ---- lookups by name, and what a caller is given ----

  /** A lookup for a carrier answers if and only if the carrier has a route, with that carrier, and
      leaves the cursor alone. */
  lemma NamedAnswers(c: Config, n: string)
    requires Ok(c)
    ensures var (d, p) := Lookup(c, Named(n));
      (p.Some? <==> n in c.routes) && (p.Some? ==> p.value.carrier == n && !p.value.byCursor) && d.cursor == c.cursor
  {
    LookupKeepsOk(c, Named(n));
  }

  /** The address alone for the default port, else followed by a colon and the port's digits. */
  lemma DestinationShows(t: Trunk)
    ensures var d := Destination(t);
      if t.port == 5060 then d == t.address
      else |d| > |t.address| + 1 && d[..|t.address|] == t.address && d[|t.address|] == ':'
           && AllDigits(d[|t.address| + 1..]) && Val(d[|t.address| + 1..]) == t.port
  {
    ValPlain(t.port);
    assert t.port != 5060 ==> Destination(t)[|t.address| + 1..] == Plain(t.port);
  }
}
