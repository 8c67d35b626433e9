/**
  What the editor's two conversions guarantee: what `convertToInputData`
  builds from any tables (incomplete rows dropped, last duplicate wins,
  compound keys matching the pairs), and that converting loaded tables back
  returns the input it was loaded from.
*/
module Conversion {
  import opened Values
  import opened Strings
  import opened Grouping
  import opened Schema
  import opened EditTables

  // ===========================================================================
  // The city table

  /** Row `i` is the last row naming its city. */
  ghost predicate LastNamed(rows: seq<CityRow>, i: int)
    requires 0 <= i < |rows|
  {
    forall j :: i < j < |rows| ==> rows[j].city != rows[i].city
  }

  /** Row `i` is the last row naming its city whose `sel` cell is filled in. */
  ghost predicate LastFilled(rows: seq<CityRow>, sel: CityRow -> Cell, i: int)
    requires 0 <= i < |rows|
  {
    forall j :: i < j < |rows| ==> !(rows[j].city == rows[i].city && CellTruthy(sel(rows[j])))
  }

  /** `cities` keeps exactly the rows with a name, in order and without removing duplicates. */
  lemma {:induction false} CityNamesSpec(rows: seq<CityRow>)
    ensures forall c :: c in CityNames(rows) <==> c != "" && exists r :: r in rows && r.city == c
    ensures (forall r :: r in rows ==> r.city != "") ==> CityNames(rows) == seq(|rows|, i requires 0 <= i < |rows| => rows[i].city)
    ensures |rows| == 1 ==> CityNames(rows) == if rows[0].city != "" then [rows[0].city] else []
  {
    if rows != [] {
      var init := rows[..|rows| - 1];
      var x := rows[|rows| - 1];
      CityNamesSpec(init);
      assert rows == init + [x];
      CityNamesSnoc(init, x);
      assert forall r :: r in rows <==> r in init || r == x;
    }
  }

  /** Together with the one-row case, `cities` keeps the named rows in row order, repeated names included. */
  lemma {:induction false} CityNamesAppend(a: seq<CityRow>, b: seq<CityRow>)
    ensures CityNames(a + b) == CityNames(a) + CityNames(b)
  {
    if b == [] {
      assert a + b == a;
    } else {
      var n := |b| - 1;
      var last := if b[n].city != "" then [b[n].city] else [];
      assert CityNames(a + b) == CityNames(a + b[..n]) + last by {
        assert a + b == (a + b[..n]) + [b[n]];
        CityNamesSnoc(a + b[..n], b[n]);
      }
      assert CityNames(b) == CityNames(b[..n]) + last by {
        assert b == b[..n] + [b[n]];
        CityNamesSnoc(b[..n], b[n]);
      }
      CityNamesAppend(a, b[..n]);
    }
  }

  lemma CityNamesSnoc(rows: seq<CityRow>, x: CityRow)
    ensures CityNames(rows + [x]) == CityNames(rows) + if x.city != "" then [x.city] else []
  {
    assert (rows + [x])[..|rows|] == rows;
  }

  /** Every named row sets a demand; the last row of a name decides it, and unreadable text counts as 0. */
  lemma {:induction false} DemandOfSpec(rows: seq<CityRow>, parse: string -> Number)
    ensures DemandOf(rows, parse).Keys == set r | r in rows && r.city != "" :: r.city
    ensures forall i :: 0 <= i < |rows| && rows[i].city != "" && LastNamed(rows, i) ==>
      DemandOf(rows, parse)[rows[i].city] == ParseOrZero(rows[i].demand, parse)
    ensures forall c :: c in DemandOf(rows, parse) ==> Truthy(DemandOf(rows, parse)[c]) || DemandOf(rows, parse)[c] == Num(0.0)
  {
    if rows != [] {
      var init := rows[..|rows| - 1];
      DemandOfSpec(init, parse);
      assert rows == init + [rows[|rows| - 1]];
      forall i | 0 <= i < |rows| - 1 && rows[i].city != "" && LastNamed(rows, i)
        ensures DemandOf(rows, parse)[rows[i].city] == ParseOrZero(rows[i].demand, parse)
      {
        assert init[i] == rows[i];
        assert LastNamed(init, i);
      }
    }
  }

  /**
    A coordinate is set only for a named row whose cell is filled in; a blank
    cell leaves the city out (so that it is geocoded) and never erases a value
    an earlier row set.
  */
  lemma {:induction false} CoordOfSpec(rows: seq<CityRow>, parse: string -> Number, sel: CityRow -> Cell)
    ensures CoordOf(rows, parse, sel).Keys == set r | r in rows && r.city != "" && CellTruthy(sel(r)) :: r.city
    ensures forall i :: 0 <= i < |rows| && rows[i].city != "" && CellTruthy(sel(rows[i])) && LastFilled(rows, sel, i) ==>
      CoordOf(rows, parse, sel)[rows[i].city] == ParseFloat(sel(rows[i]), parse)
  {
    if rows != [] {
      var init := rows[..|rows| - 1];
      CoordOfSpec(init, parse, sel);
      assert rows == init + [rows[|rows| - 1]];
      forall i | 0 <= i < |rows| - 1 && rows[i].city != "" && CellTruthy(sel(rows[i])) && LastFilled(rows, sel, i)
        ensures CoordOf(rows, parse, sel)[rows[i].city] == ParseFloat(sel(rows[i]), parse)
      {
        assert init[i] == rows[i];
        assert LastFilled(init, sel, i);
      }
    }
  }

  // ===========================================================================
  // The route tables

  /** `truck_types` is the distinct non-empty truck names of all rows, complete or not. */
  lemma {:induction false} TruckNamesSpec(rows: seq<RouteTruckRow>)
    ensures Distinct(FirstSeen(TruckNames(rows)))
    ensures forall t :: t in FirstSeen(TruckNames(rows)) <==> t != "" && exists r :: r in rows && r.truckType == t
  {
    TruckNamesMembers(rows);
    FirstSeenMembers(TruckNames(rows));
  }

  lemma {:induction false} TruckNamesMembers(rows: seq<RouteTruckRow>)
    ensures forall t :: t in TruckNames(rows) <==> t != "" && exists r :: r in rows && r.truckType == t
  {
    if rows != [] {
      TruckNamesMembers(rows[..|rows| - 1]);
      assert rows == rows[..|rows| - 1] + [rows[|rows| - 1]];
    }
  }

  /** Row `i` is the last complete row with its compound key. */
  ghost predicate LastKeyed(rows: seq<RouteTruckRow>, i: int)
    requires 0 <= i < |rows|
  {
    forall j :: i < j < |rows| && rows[j].route != "" && rows[j].truckType != "" ==>
      CompoundKey(rows[j].route, rows[j].truckType) != CompoundKey(rows[i].route, rows[i].truckType)
  }

  /** `capacity` (or `cost`) has one entry per pair of `route_trucktypes`, set by the last row with that key. */
  lemma {:induction false} AmountsOfSpec(rows: seq<RouteTruckRow>, parse: string -> Number, sel: RouteTruckRow -> Cell)
    ensures forall i :: 0 <= i < |rows| && rows[i].route != "" && rows[i].truckType != "" ==>
      (rows[i].route, rows[i].truckType) in TruckPairs(rows)
    ensures AmountsOf(rows, parse, sel).Keys == PairKeys(TruckPairs(rows))
    ensures forall i :: 0 <= i < |rows| && rows[i].route != "" && rows[i].truckType != "" && LastKeyed(rows, i) ==>
      AmountsOf(rows, parse, sel)[CompoundKey(rows[i].route, rows[i].truckType)] == ParseOrZero(sel(rows[i]), parse)
  {
    if rows != [] {
      var init := rows[..|rows| - 1];
      AmountsOfSpec(init, parse, sel);
      assert rows == init + [rows[|rows| - 1]];
      forall i | 0 <= i < |rows| - 1 && rows[i].route != "" && rows[i].truckType != "" && LastKeyed(rows, i)
        ensures AmountsOf(rows, parse, sel)[CompoundKey(rows[i].route, rows[i].truckType)] == ParseOrZero(sel(rows[i]), parse)
      {
        assert init[i] == rows[i];
        assert LastKeyed(init, i);
      }
    }
  }

  /** `route_trucktypes` holds only complete pairs; a single row gives its pair exactly when both fields are set. */
  lemma {:induction false} TruckPairsSpec(rows: seq<RouteTruckRow>)
    ensures forall p :: p in TruckPairs(rows) ==> p.0 != "" && p.1 != ""
    ensures |rows| == 1 ==>
      TruckPairs(rows) == (if rows[0].route != "" && rows[0].truckType != "" then [(rows[0].route, rows[0].truckType)] else [])
  {
    if rows != [] {
      TruckPairsSpec(rows[..|rows| - 1]);
    }
  }

  /** Together with the one-row case, `route_trucktypes` keeps the pairs of the complete rows in row order, repeated pairs included. */
  lemma {:induction false} TruckPairsAppend(a: seq<RouteTruckRow>, b: seq<RouteTruckRow>)
    ensures TruckPairs(a + b) == TruckPairs(a) + TruckPairs(b)
  {
    if b == [] {
      assert a + b == a;
    } else {
      var n := |b| - 1;
      var last := if b[n].route != "" && b[n].truckType != "" then [(b[n].route, b[n].truckType)] else [];
      assert TruckPairs(a + b) == TruckPairs(a + b[..n]) + last by {
        assert a + b == (a + b[..n]) + [b[n]];
        TruckPairsSnoc(a + b[..n], b[n]);
      }
      assert TruckPairs(b) == TruckPairs(b[..n]) + last by {
        assert b == b[..n] + [b[n]];
        TruckPairsSnoc(b[..n], b[n]);
      }
      TruckPairsAppend(a, b[..n]);
    }
  }

  lemma TruckPairsSnoc(rows: seq<RouteTruckRow>, x: RouteTruckRow)
    ensures TruckPairs(rows + [x]) == TruckPairs(rows) + if x.route != "" && x.truckType != "" then [(x.route, x.truckType)] else []
  {
    assert (rows + [x])[..|rows|] == rows;
  }

  /** The same for the route-city pairs that `route_cities` groups. */
  lemma {:induction false} RouteCityPairsAppend(a: seq<RouteCityRow>, b: seq<RouteCityRow>)
    ensures RouteCityPairs(a + b) == RouteCityPairs(a) + RouteCityPairs(b)
  {
    if b == [] {
      assert a + b == a;
    } else {
      var n := |b| - 1;
      var last := if b[n].route != "" && b[n].city != "" then [(b[n].route, b[n].city)] else [];
      assert RouteCityPairs(a + b) == RouteCityPairs(a + b[..n]) + last by {
        assert a + b == (a + b[..n]) + [b[n]];
        RouteCityPairsSnoc(a + b[..n], b[n]);
      }
      assert RouteCityPairs(b) == RouteCityPairs(b[..n]) + last by {
        assert b == b[..n] + [b[n]];
        RouteCityPairsSnoc(b[..n], b[n]);
      }
      RouteCityPairsAppend(a, b[..n]);
    }
  }

  lemma RouteCityPairsSnoc(rows: seq<RouteCityRow>, x: RouteCityRow)
    ensures RouteCityPairs(rows + [x]) == RouteCityPairs(rows) + if x.route != "" && x.city != "" then [(x.route, x.city)] else []
  {
    assert (rows + [x])[..|rows|] == rows;
  }

  /** The compound-key invariant: `capacity` and `cost` are keyed by exactly the keys of `route_trucktypes`. */
  lemma ReverseKeyInvariant(t: Tables, parse: string -> Number)
    ensures var x := Reverse(t, parse);
      x.capacity.Keys == x.cost.Keys == PairKeys(x.routeTrucktypes)
  {
    AmountsOfSpec(t.routeTrucks, parse, CapacityCell);
    AmountsOfSpec(t.routeTrucks, parse, CostCell);
  }

  /**
    `route_cities` groups the complete route-city rows by route: each route's
    list holds its cities in row order, duplicates kept; `routes` is its key
    list, each route once, in first-seen order, and no route has an empty list.
  */
  lemma ReverseRouteCities(t: Tables, parse: string -> Number)
    ensures var x := Reverse(t, parse);
      && x.routes == Firsts(x.routeCities)
      && x.routes == FirstSeen(Firsts(RouteCityPairs(t.routeCities)))
      && DistinctKeys(x.routeCities) && NoEmptyGroup(x.routeCities)
      && forall route :: Lookup(x.routeCities, route) == Select(RouteCityPairs(t.routeCities), route)
  {
    var ps := RouteCityPairs(t.routeCities);
    GroupKeys(ps);
    GroupShape(ps);
    forall route ensures Lookup(Group(ps), route) == Select(ps, route) {
      GroupLookup(ps, route);
    }
  }

  // ===========================================================================
  // The loaded tables

  lemma {:induction false} CityRowsAt(x: InputData, cs: seq<string>)
    ensures forall i :: 0 <= i < |cs| ==> CityRows(x, cs)[i] == CityRowOf(x, cs[i])
  {
    if cs != [] {
      CityRowsAt(x, cs[..|cs| - 1]);
    }
  }

  lemma {:induction false} RouteCityRowsAt(ps: seq<(string, string)>)
    ensures forall i :: 0 <= i < |ps| ==> RouteCityRows(ps)[i] == RouteCityRow(ps[i].0, ps[i].1)
  {
    if ps != [] {
      RouteCityRowsAt(ps[..|ps| - 1]);
    }
  }

  lemma {:induction false} TruckRowsAt(x: InputData, ps: seq<(string, string)>)
    ensures forall i :: 0 <= i < |ps| ==> TruckRows(x, ps)[i] == TruckRowOf(x, ps[i])
  {
    if ps != [] {
      TruckRowsAt(x, ps[..|ps| - 1]);
    }
  }

  /**
    `loadScenarioData`: one city row per entry of `cities`, in order, with
    demand defaulting to 0 and a coordinate left blank when it is absent or 0;
    one route-city row per member of each route's list, routes in key order
    and members in list order; one truck row per pair of `route_trucktypes`,
    reading capacity and cost at the pair's compound key (0 when missing).
    A table that would be empty holds the one placeholder row instead.
  */
  lemma LoadedTables(x: InputData)
    ensures var t := Forward(x);
      && (x.cities == [] ==> t.cities == [BlankCity])
      && (x.cities != [] ==> |t.cities| == |x.cities| && forall i :: 0 <= i < |x.cities| ==>
            && t.cities[i].city == x.cities[i]
            && t.cities[i].demand == Value(OrZero(Get(x.demand, x.cities[i])))
            && (Present(Get(x.latDict, x.cities[i])) ==> t.cities[i].lat == Value(x.latDict[x.cities[i]]))
            && (!Present(Get(x.latDict, x.cities[i])) ==> t.cities[i].lat == Text(""))
            && (Present(Get(x.longDict, x.cities[i])) ==> t.cities[i].long == Value(x.longDict[x.cities[i]]))
            && (!Present(Get(x.longDict, x.cities[i])) ==> t.cities[i].long == Text("")))
      && (Flatten(x.routeCities) == [] ==> t.routeCities == [BlankRouteCity])
      && (Flatten(x.routeCities) != [] ==> |t.routeCities| == |Flatten(x.routeCities)| && forall i :: 0 <= i < |t.routeCities| ==>
            t.routeCities[i] == RouteCityRow(Flatten(x.routeCities)[i].0, Flatten(x.routeCities)[i].1))
      && (x.routeTrucktypes == [] ==> t.routeTrucks == [BlankRouteTruck])
      && (x.routeTrucktypes != [] ==> |t.routeTrucks| == |x.routeTrucktypes| && forall i :: 0 <= i < |x.routeTrucktypes| ==>
            var p := x.routeTrucktypes[i];
            t.routeTrucks[i] == RouteTruckRow(p.0, p.1, Value(OrZero(Get(x.capacity, CompoundKey(p.0, p.1)))),
                                                        Value(OrZero(Get(x.cost, CompoundKey(p.0, p.1))))))
  {
    CityRowsAt(x, x.cities);
    RouteCityRowsAt(Flatten(x.routeCities));
    TruckRowsAt(x, x.routeTrucktypes);
  }

  /** The flattened route-city rows list every route's members, route after route, in order. */
  lemma FlattenSpec(g: Groups<string, string>)
    ensures |Flatten(g)| == SizeOf(g)
    ensures forall i :: 0 <= i < |g| ==> SizeOf(g[..i]) + |g[i].1| <= SizeOf(g)
    ensures forall i, j :: 0 <= i < |g| && 0 <= j < |g[i].1| ==> Flatten(g)[SizeOf(g[..i]) + j] == (g[i].0, g[i].1[j])
  {
    FlattenSize(g);
    forall i | 0 <= i < |g| ensures SizeOf(g[..i]) + |g[i].1| <= SizeOf(g) {
      SizeOfPrefix(g, i);
    }
    forall i, j | 0 <= i < |g| && 0 <= j < |g[i].1|
      ensures Flatten(g)[SizeOf(g[..i]) + j] == (g[i].0, g[i].1[j])
    {
      FlattenAt(g, i, j);
    }
  }

  lemma {:induction false} FlattenSize(g: Groups<string, string>)
    ensures |Flatten(g)| == SizeOf(g)
  {
    if g != [] {
      FlattenSize(g[..|g| - 1]);
    }
  }

  /** Value `j` of group `i` sits at its group's offset plus `j`. */
  lemma {:induction false} FlattenAt(g: Groups<string, string>, i: nat, j: nat)
    requires i < |g| && j < |g[i].1|
    ensures SizeOf(g[..i]) + j < |Flatten(g)|
    ensures Flatten(g)[SizeOf(g[..i]) + j] == (g[i].0, g[i].1[j])
  {
    var n := |g| - 1;
    FlattenSize(g);
    FlattenSize(g[..n]);
    SizeOfPrefix(g, i);
    if i < n {
      FlattenAt(g[..n], i, j);
      assert g[..n][..i] == g[..i];
      assert g[..n][i] == g[i];
    } else {
      assert g[..i] == g[..n];
    }
  }

  function SizeOf(g: Groups<string, string>): nat {
    if g == [] then 0 else SizeOf(g[..|g| - 1]) + |g[|g| - 1].1|
  }

  lemma {:induction false} SizeOfPrefix(g: Groups<string, string>, i: nat)
    requires i < |g|
    ensures SizeOf(g[..i]) + |g[i].1| <= SizeOf(g)
  {
    if i < |g| - 1 {
      SizeOfPrefix(g[..|g| - 1], i);
      assert g[..|g| - 1][..i] == g[..i];
    } else {
      assert g[..i] == g[..|g| - 1];
    }
  }

  /** Adding a blank city row (`addCity`) leaves the converted input unchanged. */
  lemma BlankCityIgnored(t: Tables, parse: string -> Number)
    ensures Reverse(Tables(t.cities + [BlankCity], t.routeCities, t.routeTrucks), parse) == Reverse(t, parse)
  {
    assert (t.cities + [BlankCity])[..|t.cities|] == t.cities;
  }

  /** Adding a blank route-city row (`addRouteCity`) leaves the converted input unchanged. */
  lemma BlankRouteCityIgnored(t: Tables, parse: string -> Number)
    ensures Reverse(Tables(t.cities, t.routeCities + [BlankRouteCity], t.routeTrucks), parse) == Reverse(t, parse)
  {
    var rows := t.routeCities + [BlankRouteCity];
    assert rows[..|t.routeCities|] == t.routeCities;
    assert RouteCityPairs(rows) == RouteCityPairs(t.routeCities);
  }

  /** Adding a blank truck row (`addRouteTruckType`) leaves the converted input unchanged. */
  lemma BlankRouteTruckIgnored(t: Tables, parse: string -> Number)
    ensures Reverse(Tables(t.cities, t.routeCities, t.routeTrucks + [BlankRouteTruck]), parse) == Reverse(t, parse)
  {
    var trucks := t.routeTrucks + [BlankRouteTruck];
    assert trucks[..|t.routeTrucks|] == t.routeTrucks;
    assert TruckNames(trucks) == TruckNames(t.routeTrucks);
    assert TruckPairs(trucks) == TruckPairs(t.routeTrucks);
    assert AmountsOf(trucks, parse, CapacityCell) == AmountsOf(t.routeTrucks, parse, CapacityCell);
    assert AmountsOf(trucks, parse, CostCell) == AmountsOf(t.routeTrucks, parse, CostCell);
  }

  // ===========================================================================
  // Round trip: load, then convert back

  /**
    What a stored input must satisfy for the round trip: identifiers are
    non-empty, every route lists at least one city, and `capacity`/`cost`
    hold one number (not NaN) per pair of `route_trucktypes`.
  */
  ghost predicate WellFormed(x: InputData) {
    && (forall c :: c in x.cities ==> c != "")
    && DistinctKeys(x.routeCities) && NoEmptyGroup(x.routeCities)
    && (forall i :: 0 <= i < |x.routeCities| ==> x.routeCities[i].0 != "" && "" !in x.routeCities[i].1)
    && (forall p :: p in x.routeTrucktypes ==> p.0 != "" && p.1 != "")
    && x.capacity.Keys == PairKeys(x.routeTrucktypes) && x.cost.Keys == PairKeys(x.routeTrucktypes)
    && (forall k :: k in x.capacity ==> x.capacity[k].Num?)
    && (forall k :: k in x.cost ==> x.cost[k].Num?)
  }

  function Seconds(ps: seq<(string, string)>): (ts: seq<string>)
    ensures |ts| == |ps|
  {
    seq(|ps|, i requires 0 <= i < |ps| => ps[i].1)
  }

  lemma {:induction false} ForwardCityNames(x: InputData, cs: seq<string>)
    requires forall c :: c in cs ==> c != ""
    ensures CityNames(CityRows(x, cs)) == cs
  {
    if cs != [] {
      var init := cs[..|cs| - 1];
      assert cs == init + [cs[|cs| - 1]];
      assert forall c :: c in init ==> c in cs;
      ForwardCityNames(x, init);
      var rows := CityRows(x, cs);
      assert rows[..|cs| - 1] == CityRows(x, init);
      assert rows[|cs| - 1].city == cs[|cs| - 1] && cs[|cs| - 1] in cs;
      assert CityNames(rows) == CityNames(rows[..|cs| - 1]) + [cs[|cs| - 1]];
    }
  }

  /** A non-empty sequence is its prefix plus its last element, and has exactly their members. */
  lemma SplitLast<T>(s: seq<T>)
    requires s != []
    ensures s == s[..|s| - 1] + [s[|s| - 1]]
    ensures forall y :: y in s[..|s| - 1] ==> y in s
    ensures s[|s| - 1] in s
    ensures forall y :: y in s ==> y in s[..|s| - 1] || y == s[|s| - 1]
  {
    assert s == s[..|s| - 1] + [s[|s| - 1]];
  }

  lemma {:induction false} ForwardDemand(x: InputData, cs: seq<string>, parse: string -> Number)
    requires forall c :: c in cs ==> c != ""
    ensures forall c :: c in DemandOf(CityRows(x, cs), parse) <==> c in cs
    ensures forall c :: c in cs ==> DemandOf(CityRows(x, cs), parse)[c] == OrZero(Get(x.demand, c))
  {
    if cs != [] {
      var init := cs[..|cs| - 1];
      var c := cs[|cs| - 1];
      assert cs == init + [c] && c != "" && forall c' :: c' in init ==> c' != "" by {
        SplitLast(cs);
        assert forall c' :: c' in init ==> c' in cs;
      }
      ForwardDemand(x, init, parse);
      ForwardDemandStep(x, init, c, parse);
    }
  }

  /** One more city row sets that city's demand to its stored value or 0, and keeps the others. */
  lemma ForwardDemandStep(x: InputData, init: seq<string>, c: string, parse: string -> Number)
    requires c != ""
    requires forall c' :: c' in DemandOf(CityRows(x, init), parse) <==> c' in init
    requires forall c' :: c' in init ==> DemandOf(CityRows(x, init), parse)[c'] == OrZero(Get(x.demand, c'))
    ensures forall c' :: c' in DemandOf(CityRows(x, init + [c]), parse) <==> c' in init + [c]
    ensures forall c' :: c' in init + [c] ==> DemandOf(CityRows(x, init + [c]), parse)[c'] == OrZero(Get(x.demand, c'))
  {
    var m := DemandOf(CityRows(x, init), parse);
    assert DemandOf(CityRows(x, init + [c]), parse) == m[c := OrZero(Get(x.demand, c))] by {
      var cs := init + [c];
      assert cs[..|cs| - 1] == init;
      var rows := CityRows(x, cs);
      assert rows[..|cs| - 1] == CityRows(x, init);
      OrZeroIdempotent(Get(x.demand, c));
    }
  }

  lemma {:induction false} ForwardCoords(x: InputData, cs: seq<string>, parse: string -> Number, sel: CityRow -> Cell, d: map<string, Number>)
    requires forall c :: c in cs ==> c != ""
    requires forall c :: sel(CityRowOf(x, c)) == CoordCell(Get(d, c))
    ensures forall c :: c in CoordOf(CityRows(x, cs), parse, sel) <==> c in cs && Present(Get(d, c))
    ensures forall c :: c in cs && Present(Get(d, c)) ==> CoordOf(CityRows(x, cs), parse, sel)[c] == d[c]
  {
    if cs != [] {
      var init := cs[..|cs| - 1];
      var c := cs[|cs| - 1];
      SplitLast(cs);
      assert forall c' :: c' in init ==> c' in cs;
      ForwardCoords(x, init, parse, sel, d);
      ForwardCoordsStep(x, init, c, parse, sel, d);
    }
  }

  /** One more city row records that city's coordinate exactly when it is present. */
  lemma ForwardCoordsStep(x: InputData, init: seq<string>, c: string, parse: string -> Number, sel: CityRow -> Cell, d: map<string, Number>)
    requires c != ""
    requires sel(CityRowOf(x, c)) == CoordCell(Get(d, c))
    ensures var m0 := CoordOf(CityRows(x, init), parse, sel);
      CoordOf(CityRows(x, init + [c]), parse, sel) == if Present(Get(d, c)) then m0[c := d[c]] else m0
  {
    var cs := init + [c];
    assert cs[..|cs| - 1] == init;
    var rows := CityRows(x, cs);
    assert rows[..|cs| - 1] == CityRows(x, init);
  }

  lemma {:induction false} ForwardRouteCityPairs(ps: seq<(string, string)>)
    requires forall p :: p in ps ==> p.0 != "" && p.1 != ""
    ensures RouteCityPairs(RouteCityRows(ps)) == ps
  {
    if ps != [] {
      assert ps == ps[..|ps| - 1] + [ps[|ps| - 1]];
      ForwardRouteCityPairs(ps[..|ps| - 1]);
      assert RouteCityRows(ps)[..|ps| - 1] == RouteCityRows(ps[..|ps| - 1]);
      assert ps == ps[..|ps| - 1] + [ps[|ps| - 1]];
    }
  }

  lemma {:induction false} FlattenMembers(g: Groups<string, string>)
    ensures forall p :: p in Flatten(g) ==> exists i :: 0 <= i < |g| && p.0 == g[i].0 && p.1 in g[i].1
    ensures NoEmptyGroup(g) && g != [] ==> Flatten(g) != []
  {
    if g != [] {
      var n := |g| - 1;
      FlattenMembers(g[..n]);
      forall p | p in Flatten(g) ensures exists i :: 0 <= i < |g| && p.0 == g[i].0 && p.1 in g[i].1 {
        if p in Flatten(g[..n]) {
          var i :| 0 <= i < n && p.0 == g[..n][i].0 && p.1 in g[..n][i].1;
          assert g[..n][i] == g[i];
        } else {
          var j :| 0 <= j < |g[n].1| && p == Pairs(g[n].0, g[n].1)[j];
          assert p.1 == g[n].1[j];
        }
      }
      if NoEmptyGroup(g) {
        assert |Flatten(g)| >= |Pairs(g[n].0, g[n].1)| > 0;
      }
    }
  }

  lemma {:induction false} ForwardTruckPairs(x: InputData, ps: seq<(string, string)>)
    requires forall p :: p in ps ==> p.0 != "" && p.1 != ""
    ensures TruckPairs(TruckRows(x, ps)) == ps
    ensures TruckNames(TruckRows(x, ps)) == Seconds(ps)
  {
    if ps != [] {
      var init := ps[..|ps| - 1];
      assert ps == init + [ps[|ps| - 1]];
      ForwardTruckPairs(x, init);
      assert TruckRows(x, ps)[..|ps| - 1] == TruckRows(x, init);
      assert Seconds(ps) == Seconds(init) + [ps[|ps| - 1].1];
    }
  }

  lemma {:induction false} ForwardAmounts(x: InputData, ps: seq<(string, string)>, parse: string -> Number,
                                          sel: RouteTruckRow -> Cell, d: map<string, Number>)
    requires forall p :: p in ps ==> p.0 != "" && p.1 != ""
    requires forall p :: sel(TruckRowOf(x, p)) == Value(OrZero(Get(d, CompoundKey(p.0, p.1))))
    ensures AmountsOf(TruckRows(x, ps), parse, sel).Keys == PairKeys(ps)
    ensures forall k :: k in PairKeys(ps) ==> AmountsOf(TruckRows(x, ps), parse, sel)[k] == OrZero(Get(d, k))
  {
    if ps != [] {
      var init := ps[..|ps| - 1];
      var p := ps[|ps| - 1];
      SplitLast(ps);
      ForwardAmounts(x, init, parse, sel, d);
      ForwardAmountsStep(x, init, p, parse, sel, d);
      assert PairKeys(ps) == PairKeys(init) + {CompoundKey(p.0, p.1)};
    }
  }

  /** One more truck row sets its compound key's amount to the stored value or 0. */
  lemma ForwardAmountsStep(x: InputData, init: seq<(string, string)>, p: (string, string), parse: string -> Number,
                           sel: RouteTruckRow -> Cell, d: map<string, Number>)
    requires p.0 != "" && p.1 != ""
    requires sel(TruckRowOf(x, p)) == Value(OrZero(Get(d, CompoundKey(p.0, p.1))))
    ensures var k := CompoundKey(p.0, p.1);
      AmountsOf(TruckRows(x, init + [p]), parse, sel) == AmountsOf(TruckRows(x, init), parse, sel)[k := OrZero(Get(d, k))]
  {
    var ps := init + [p];
    assert ps[..|ps| - 1] == init;
    var rows := TruckRows(x, ps);
    assert rows[..|ps| - 1] == TruckRows(x, init);
    OrZeroIdempotent(Get(d, CompoundKey(p.0, p.1)));
  }

  /** The placeholder rows contribute nothing to the converted input. */
  lemma PlaceholdersVanish(parse: string -> Number)
    ensures CityNames([BlankCity]) == [] && DemandOf([BlankCity], parse) == map[]
    ensures CoordOf([BlankCity], parse, LatCell) == map[] && CoordOf([BlankCity], parse, LongCell) == map[]
    ensures RouteCityPairs([BlankRouteCity]) == []
    ensures TruckPairs([BlankRouteTruck]) == [] && TruckNames([BlankRouteTruck]) == []
    ensures AmountsOf([BlankRouteTruck], parse, CapacityCell) == map[] && AmountsOf([BlankRouteTruck], parse, CostCell) == map[]
  {
    assert [BlankCity][..0] == [];
    assert [BlankRouteCity][..0] == [];
    assert [BlankRouteTruck][..0] == [];
  }

  /** The city names and demands of the loaded city table, converted back. */
  lemma CityTableBack(x: InputData, parse: string -> Number)
    requires forall c :: c in x.cities ==> c != ""
    ensures CityNames(Forward(x).cities) == x.cities
    ensures DemandOf(Forward(x).cities, parse) == map c | c in x.cities :: OrZero(Get(x.demand, c))
  {
    PlaceholdersVanish(parse);
    ForwardCityNames(x, x.cities);
    ForwardDemand(x, x.cities, parse);
  }

  /** One coordinate column of the loaded city table, converted back. */
  lemma CoordsBack(x: InputData, parse: string -> Number, sel: CityRow -> Cell, d: map<string, Number>)
    requires forall c :: c in x.cities ==> c != ""
    requires forall c :: sel(CityRowOf(x, c)) == CoordCell(Get(d, c))
    requires sel(BlankCity) == Text("")
    ensures CoordOf(Forward(x).cities, parse, sel) == map c | c in x.cities && Present(Get(d, c)) :: d[c]
  {
    assert [BlankCity][..0] == [];
    ForwardCoords(x, x.cities, parse, sel, d);
  }

  /** The loaded route-city rows, regrouped. */
  lemma RouteCitiesBack(x: InputData)
    requires WellFormed(x)
    ensures Group(RouteCityPairs(Forward(x).routeCities)) == x.routeCities
  {
    assert [BlankRouteCity][..0] == [];
    var flat := Flatten(x.routeCities);
    FlattenMembers(x.routeCities);
    ForwardRouteCityPairs(flat);
    GroupFlatten(x.routeCities);
  }

  /** One amount column of the loaded truck table, converted back. */
  lemma AmountsBack(x: InputData, ps: seq<(string, string)>, parse: string -> Number, sel: RouteTruckRow -> Cell, d: map<string, Number>)
    requires forall p :: p in ps ==> p.0 != "" && p.1 != ""
    requires forall p :: sel(TruckRowOf(x, p)) == Value(OrZero(Get(d, CompoundKey(p.0, p.1))))
    requires sel(BlankRouteTruck) == Value(Num(0.0))
    requires d.Keys == PairKeys(ps) && forall k :: k in d ==> d[k].Num?
    ensures AmountsOf(WithPlaceholder(TruckRows(x, ps), BlankRouteTruck), parse, sel) == d
  {
    if ps == [] {
      assert [BlankRouteTruck][..0] == [];
    } else {
      var m := AmountsOf(TruckRows(x, ps), parse, sel);
      ForwardAmounts(x, ps, parse, sel, d);
      forall k | k in d ensures m[k] == d[k] {
        assert Get(d, k) == Some(d[k]);
      }
    }
  }

  /**
    Loading a well-formed input into the editor and converting it straight
    back returns its `cities`, `route_cities`, `route_trucktypes`, `capacity`
    and `cost` unchanged, and `routes` as the route keys. Demand comes back for
    every listed city (0 where it was missing, 0 or NaN); a coordinate comes
    back only where it was present and truthy, so a stored 0 is lost.
  */
  lemma RoundTrip(x: InputData, parse: string -> Number)
    requires WellFormed(x)
    ensures var y := Reverse(Forward(x), parse);
      && y.cities == x.cities
      && y.routeCities == x.routeCities
      && y.routes == Firsts(x.routeCities)
      && y.routeTrucktypes == x.routeTrucktypes
      && y.truckTypes == FirstSeen(Seconds(x.routeTrucktypes))
      && y.capacity == x.capacity
      && y.cost == x.cost
      && y.demand == (map c | c in x.cities :: OrZero(Get(x.demand, c)))
      && y.latDict == (map c | c in x.cities && Present(Get(x.latDict, c)) :: x.latDict[c])
      && y.longDict == (map c | c in x.cities && Present(Get(x.longDict, c)) :: x.longDict[c])
  {
    CityTableBack(x, parse);
    CoordsBack(x, parse, LatCell, x.latDict);
    CoordsBack(x, parse, LongCell, x.longDict);
    RouteCitiesBack(x);
    PlaceholdersVanish(parse);
    ForwardTruckPairs(x, x.routeTrucktypes);
    AmountsBack(x, x.routeTrucktypes, parse, CapacityCell, x.capacity);
    AmountsBack(x, x.routeTrucktypes, parse, CostCell, x.cost);
  }

  /** A city stored at latitude 0 comes back without a latitude: `lat || ''` blanks the cell. */
  lemma ZeroLatitudeDropped(parse: string -> Number)
    ensures var x := InputData(["Quito"], map["Quito" := Num(5.0)], map["Quito" := Num(0.0)], map["Quito" := Num(-78.5)],
                               [], [], [], [], map[], map[]);
      var y := Reverse(Forward(x), parse);
      "Quito" !in y.latDict && y.longDict == x.longDict
  {
    var x := InputData(["Quito"], map["Quito" := Num(5.0)], map["Quito" := Num(0.0)], map["Quito" := Num(-78.5)],
                       [], [], [], [], map[], map[]);
    assert Forward(x).cities == [CityRowOf(x, "Quito")];
    assert CityRowOf(x, "Quito").lat == Text("");
  }
}
