/**
  The backend's helpers around the optimizer: the guards of the Excel
  upload, the grouping of route-city rows, the conversion of tuple-keyed
  dictionaries to JSON-friendly string keys, the coordinate table sent to the
  map, and the nearest-neighbour ordering of a route's cities. Distances are
  a parameter standing for the haversine formula.
*/
module Server {
  import opened Values
  import opened Strings
  import opened Grouping

  // ===========================================================================
  // Upload guards

  /** Why an upload is refused; the endpoint answers every one of them with HTTP status 400. */
  datatype UploadError = NotExcel | UnsupportedFormat | MissingSheet(sheet: string)

  /**
    Which guard of `upload_excel` and `parse_excel_file` stops a workbook,
    given its file name and sheet names; `None` when the workbook gets as far
    as reading its three sheets. The name is checked first; then the two
    sheets that identify the format; the third sheet is read without a check
    and fails the parse when it is missing.
  */
  function CheckUpload(fileName: string, sheetNames: seq<string>): (r: Option<UploadError>)
    ensures r == Some(NotExcel) <==> !HasExcelExtension(fileName)
    ensures r == Some(UnsupportedFormat) <==> HasExcelExtension(fileName) && !("Cities" in sheetNames && "Route_Cities" in sheetNames)
    ensures r.None? <==> HasExcelExtension(fileName) && "Cities" in sheetNames && "Route_Cities" in sheetNames && "Route_TruckTypes" in sheetNames
  {
    if !HasExcelExtension(fileName) then Some(NotExcel)
    else if !("Cities" in sheetNames && "Route_Cities" in sheetNames) then Some(UnsupportedFormat)
    else if "Route_TruckTypes" !in sheetNames then Some(MissingSheet("Route_TruckTypes"))
    else None
  }

  // ===========================================================================
  // route_cities

  /**
    `route_cities.setdefault(route, []).append(city)` over the rows of the
    Route_Cities sheet: each route's cities in row order, duplicates kept,
    routes in first-seen order.
  */
  method GroupRouteCities(rows: seq<(string, string)>) returns (g: Groups<string, string>)
    ensures g == Group(rows)
    ensures Firsts(g) == FirstSeen(Firsts(rows)) && DistinctKeys(g) && NoEmptyGroup(g)
    ensures forall route :: Lookup(g, route) == Select(rows, route)
  {
    g := [];
    var i := 0;
    while i < |rows|
      invariant 0 <= i <= |rows|
      invariant g == Group(rows[..i])
    {
      var (route, city) := rows[i];
      assert rows[..i + 1][..i] == rows[..i];
      g := Add(g, route, city);
      i := i + 1;
    }
    assert rows[..i] == rows;
    GroupKeys(rows);
    GroupShape(rows);
    forall route ensures Lookup(g, route) == Select(rows, route) {
      GroupLookup(rows, route);
    }
  }

  // ===========================================================================
  // Serialisation of tuple keys

  /** A Python dictionary keyed by (route, truck) tuples, in insertion order. */
  type TupleDict<V> = seq<((string, string), V)>

  predicate DistinctTupleKeys<V>(d: TupleDict<V>) {
    forall i, j :: 0 <= i < j < |d| ==> d[i].0 != d[j].0
  }

  /** `[[rt[0], rt[1]] for rt in route_trucktypes]` */
  function PairsToLists(ps: seq<(string, string)>): (ls: seq<seq<string>>)
    ensures |ls| == |ps|
    ensures forall i :: 0 <= i < |ps| ==> ls[i] == [ps[i].0, ps[i].1]
  {
    seq(|ps|, i requires 0 <= i < |ps| => [ps[i].0, ps[i].1])
  }

  /**
    `{f"{k[0]}|{k[1]}": v for k, v in d.items()}`: each entry is stored under
    its compound key, and a later entry overwrites an earlier one with the
    same compound key.
  */
  function SerializeKeys<V>(d: TupleDict<V>): (m: map<string, V>)
    ensures m.Keys == set e | e in d :: CompoundKey(e.0.0, e.0.1)
  {
    if d == [] then map[]
    else
      var e := d[|d| - 1];
      var init := d[..|d| - 1];
      assert d == init + [e];
      SerializeKeys(init)[CompoundKey(e.0.0, e.0.1) := e.1]
  }

  /**
    When no route name contains `|` and the dictionary's keys are distinct,
    nothing is lost: every entry's value is found under its compound key.
  */
  lemma SerializeKeysLossless<V>(d: TupleDict<V>)
    requires DistinctTupleKeys(d)
    requires forall i :: 0 <= i < |d| ==> Delimiter !in d[i].0.0
    ensures forall i :: 0 <= i < |d| ==> SerializeKeys(d)[CompoundKey(d[i].0.0, d[i].0.1)] == d[i].1
  {
    forall i | 0 <= i < |d| ensures SerializeKeys(d)[CompoundKey(d[i].0.0, d[i].0.1)] == d[i].1 {
      SerializeKeysAt(d, i);
    }
  }

  /** Entry `i` is not overwritten by any later entry. */
  lemma {:induction false} SerializeKeysAt<V>(d: TupleDict<V>, i: int)
    requires DistinctTupleKeys(d)
    requires forall j :: 0 <= j < |d| ==> Delimiter !in d[j].0.0
    requires 0 <= i < |d|
    ensures SerializeKeys(d)[CompoundKey(d[i].0.0, d[i].0.1)] == d[i].1
    decreases |d|
  {
    var n := |d| - 1;
    var init := d[..n];
    var last := CompoundKey(d[n].0.0, d[n].0.1);
    assert SerializeKeys(d) == SerializeKeys(init)[last := d[n].1];
    if i < n {
      assert forall j :: 0 <= j < n ==> init[j] == d[j];
      SerializeKeysAt(init, i);
      var key := CompoundKey(d[i].0.0, d[i].0.1);
      if key == last {
        CompoundKeyInjective(d[i].0.0, d[i].0.1, d[n].0.0, d[n].0.1);
        assert false;
      }
    }
  }

  /** With a `|` inside a route name two different tuples share a string key, and the first value is lost. */
  lemma SerializeKeysCollision()
    ensures var d: TupleDict<int> := [(("a|b", "c"), 1), (("a", "b|c"), 2)];
      DistinctTupleKeys(d) && SerializeKeys(d) == map["a|b|c" := 2]
  {
    var d: TupleDict<int> := [(("a|b", "c"), 1), (("a", "b|c"), 2)];
    CompoundKeyCollision();
    assert CompoundKey("a|b", "c") == "a|b|c";
    assert d[..1] == [(("a|b", "c"), 1)];
    assert d[..1][..0] == [];
    assert SerializeKeys(d[..1]) == map["a|b|c" := 1];
  }

  // ===========================================================================
  // city_coordinates

  /** The `[lat, long]` entry sent to the map for every city that has both coordinates. */
  method CityCoordinates(cities: seq<string>, latDict: map<string, real>, longDict: map<string, real>)
      returns (coords: map<string, (real, real)>)
    ensures coords.Keys == set c | c in cities && c in latDict && c in longDict
    ensures forall c :: c in coords ==> coords[c] == (latDict[c], longDict[c])
  {
    coords := map[];
    var i := 0;
    while i < |cities|
      invariant 0 <= i <= |cities|
      invariant coords.Keys == set c | c in cities[..i] && c in latDict && c in longDict
      invariant forall c :: c in coords ==> c in latDict && c in longDict && coords[c] == (latDict[c], longDict[c])
    {
      var city := cities[i];
      assert cities[..i + 1] == cities[..i] + [city];
      if city in latDict && city in longDict {
        coords := coords[city := (latDict[city], longDict[city])];
      }
      i := i + 1;
    }
    assert cities[..i] == cities;
  }

  // ===========================================================================
  // Nearest-neighbour ordering

  /** Where the tour starts: `start` when it is given, non-empty and among the cities, otherwise the first city. */
  function StartCity(cities: seq<string>, start: Option<string>): (c: string)
    requires cities != []
    ensures c in cities
    ensures start.Some? && start.value != "" && start.value in cities ==> c == start.value
    ensures !(start.Some? && start.value != "" && start.value in cities) ==> c == cities[0]
  {
    if start.Some? && start.value != "" && start.value in cities then start.value else cities[0]
  }

  /** Step `k` of a tour went to a nearest city among those not yet visited. */
  ghost predicate NearestAt(route: seq<string>, cities: seq<string>, dist: (string, string) -> real, k: int)
    requires 0 < k < |route|
  {
    forall c :: c in cities && c !in route[..k] ==> dist(route[k - 1], route[k]) <= dist(route[k - 1], c)
  }

  ghost predicate Greedy(route: seq<string>, cities: seq<string>, dist: (string, string) -> real) {
    forall k :: 0 < k < |route| ==> NearestAt(route, cities, dist, k)
  }

  /**
    `sort_cities_nearest_neighbor`: from the start city, repeatedly move to a
    nearest unvisited city. The tour visits every distinct city exactly once,
    and ties between equally near cities may go either way.
  */
  method SortCitiesNearestNeighbor(cities: seq<string>, dist: (string, string) -> real, start: Option<string>)
      returns (route: seq<string>)
    ensures cities == [] ==> route == []
    ensures cities != [] ==> route != [] && route[0] == StartCity(cities, start)
    ensures Distinct(route)
    ensures forall c :: c in route <==> c in cities
    ensures Greedy(route, cities, dist)
  {
    if cities == [] {
      return [];
    }
    var current := StartCity(cities, start);
    var unvisited := (set c | c in cities) - {current};
    route := [current];
    while unvisited != {}
      invariant route != [] && route[0] == StartCity(cities, start) && current == route[|route| - 1]
      invariant Distinct(route)
      invariant forall c :: c in unvisited <==> c in cities && c !in route
      invariant forall c :: c in route ==> c in cities
      invariant Greedy(route, cities, dist)
      decreases |unvisited|
    {
      NearestExists(unvisited, current, dist);
      var next :| next in unvisited && forall c :: c in unvisited ==> dist(current, next) <= dist(current, c);
      var route' := route + [next];
      GreedyExtend(route, cities, dist, next);
      DistinctExtend(route, next);
      route := route';
      unvisited := unvisited - {next};
      current := next;
    }
  }

  /** Moving on to a nearest unvisited city keeps the tour greedy. */
  lemma GreedyExtend(route: seq<string>, cities: seq<string>, dist: (string, string) -> real, next: string)
    requires route != [] && Greedy(route, cities, dist)
    requires forall c :: c in cities && c !in route ==> dist(route[|route| - 1], next) <= dist(route[|route| - 1], c)
    ensures Greedy(route + [next], cities, dist)
  {
    var route' := route + [next];
    forall k | 0 < k < |route'| ensures NearestAt(route', cities, dist, k) {
      assert route'[..k] == if k < |route| then route[..k] else route;
      if k < |route| {
        assert NearestAt(route, cities, dist, k);
      }
    }
  }

  lemma DistinctExtend(route: seq<string>, next: string)
    requires Distinct(route) && next !in route
    ensures Distinct(route + [next])
  {
    var route' := route + [next];
    forall i, j | 0 <= i < j < |route'| ensures route'[i] != route'[j] {
      if j == |route| {
        assert route'[i] == route[i];
      }
    }
  }

  /** A finite non-empty set of cities has a nearest member. */
  lemma NearestExists(s: set<string>, from: string, dist: (string, string) -> real)
    requires s != {}
    ensures exists m :: m in s && forall c :: c in s ==> dist(from, m) <= dist(from, c)
  {
    var x :| x in s;
    if s == {x} {
      assert forall c :: c in s ==> c == x;
    } else {
      NearestExists(s - {x}, from, dist);
      var m :| m in s - {x} && forall c :: c in s - {x} ==> dist(from, m) <= dist(from, c);
      if dist(from, x) < dist(from, m) {
        assert forall c :: c in s ==> dist(from, x) <= dist(from, c);
      } else {
        assert forall c :: c in s ==> dist(from, m) <= dist(from, c);
      }
    }
  }
}
