/**
  The scenario editor's state: its three row tables, filled from a stored
  input, edited row by row, and converted back into a normalized input. The
  state setters are modelled as synchronous field assignments.
*/
module Editor {
  import opened Values
  import opened Strings
  import opened Grouping
  import opened Lists
  import opened Schema
  import opened EditTables

  class ScenarioEditor {
    var cities: seq<CityRow>
    var routeCities: seq<RouteCityRow>
    var routeTrucks: seq<RouteTruckRow>

    function Contents(): Tables
      reads this
    {
      Tables(cities, routeCities, routeTrucks)
    }

    /**
      Opening the editor: the stored input is loaded when the scenario has
      one; otherwise each table starts with one placeholder row. Either way no
      table starts empty.
    */
    constructor (input: Option<InputData>)
      ensures input.Some? ==> Contents() == Forward(input.value)
      ensures input.None? ==> Contents() == EmptyTables
      ensures cities != [] && routeCities != [] && routeTrucks != []
    {
      cities := [BlankCity];
      routeCities := [BlankRouteCity];
      routeTrucks := [BlankRouteTruck];
      new;
      if input.Some? {
        Load(input.value);
      }
    }

    /** `loadScenarioData`: the city and truck rows are maps; the route-city rows are pushed in a nested loop. */
    method Load(x: InputData)
      modifies this
      ensures Contents() == Forward(x)
      ensures cities != [] && routeCities != [] && routeTrucks != []
    {
      var g := x.routeCities;
      var rows: seq<RouteCityRow> := [];
      var i := 0;
      while i < |g|
        invariant 0 <= i <= |g|
        invariant rows == RouteCityRows(Flatten(g[..i]))
      {
        var route := g[i].0;
        var members := g[i].1;
        var j := 0;
        assert Flatten(g[..i]) + Pairs(route, members[..0]) == Flatten(g[..i]);
        while j < |members|
          invariant 0 <= j <= |members|
          invariant rows == RouteCityRows(Flatten(g[..i]) + Pairs(route, members[..j]))
        {
          PushRouteCity(Flatten(g[..i]), route, members, j);
          rows := rows + [RouteCityRow(route, members[j])];
          j := j + 1;
        }
        assert members[..j] == members;
        assert g[..i + 1][..i] == g[..i];
        assert Flatten(g[..i + 1]) == Flatten(g[..i]) + Pairs(route, members);
        i := i + 1;
      }
      assert g[..i] == g;
      cities := WithPlaceholder(CityRows(x, x.cities), BlankCity);
      routeCities := WithPlaceholder(rows, BlankRouteCity);
      routeTrucks := WithPlaceholder(TruckRows(x, x.routeTrucktypes), BlankRouteTruck);
    }

    /** `addCity`: one blank row at the end. */
    method AddCity()
      modifies this
      ensures cities == old(cities) + [BlankCity]
      ensures routeCities == old(routeCities) && routeTrucks == old(routeTrucks)
    {
      cities := cities + [BlankCity];
    }

    /** `removeCity(index)`: the row at `index` goes, the others keep their order. */
    method RemoveCity(index: int)
      modifies this
      ensures cities == RemoveAt(old(cities), index)
      ensures routeCities == old(routeCities) && routeTrucks == old(routeTrucks)
    {
      cities := RemoveAt(cities, index);
    }

    /** `updateCity(index, field, value)`: only `field` of row `index` changes. */
    method UpdateCity(index: int, field: CityField, value: string)
      requires 0 <= index < |cities|
      modifies this
      ensures cities == old(cities)[index := SetCityField(old(cities)[index], field, value)]
      ensures routeCities == old(routeCities) && routeTrucks == old(routeTrucks)
    {
      cities := cities[index := SetCityField(cities[index], field, value)];
    }

    method AddRouteCity()
      modifies this
      ensures routeCities == old(routeCities) + [BlankRouteCity]
      ensures cities == old(cities) && routeTrucks == old(routeTrucks)
    {
      routeCities := routeCities + [BlankRouteCity];
    }

    method RemoveRouteCity(index: int)
      modifies this
      ensures routeCities == RemoveAt(old(routeCities), index)
      ensures cities == old(cities) && routeTrucks == old(routeTrucks)
    {
      routeCities := RemoveAt(routeCities, index);
    }

    method UpdateRouteCity(index: int, field: RouteCityField, value: string)
      requires 0 <= index < |routeCities|
      modifies this
      ensures routeCities == old(routeCities)[index := SetRouteCityField(old(routeCities)[index], field, value)]
      ensures cities == old(cities) && routeTrucks == old(routeTrucks)
    {
      routeCities := routeCities[index := SetRouteCityField(routeCities[index], field, value)];
    }

    method AddRouteTruckType()
      modifies this
      ensures routeTrucks == old(routeTrucks) + [BlankRouteTruck]
      ensures cities == old(cities) && routeCities == old(routeCities)
    {
      routeTrucks := routeTrucks + [BlankRouteTruck];
    }

    method RemoveRouteTruckType(index: int)
      modifies this
      ensures routeTrucks == RemoveAt(old(routeTrucks), index)
      ensures cities == old(cities) && routeCities == old(routeCities)
    {
      routeTrucks := RemoveAt(routeTrucks, index);
    }

    method UpdateRouteTruckType(index: int, field: RouteTruckField, value: string)
      requires 0 <= index < |routeTrucks|
      modifies this
      ensures routeTrucks == old(routeTrucks)[index := SetRouteTruckField(old(routeTrucks)[index], field, value)]
      ensures cities == old(cities) && routeCities == old(routeCities)
    {
      routeTrucks := routeTrucks[index := SetRouteTruckField(routeTrucks[index], field, value)];
    }

    /**
      `convertToInputData`: the dictionaries are filled row by row, exactly as
      the specification function `Reverse` describes them.
    */
    method ConvertToInputData(parse: string -> Number) returns (x: InputData)
      ensures x == Reverse(Contents(), parse)
    {
      var demand: map<string, Number> := map[];
      var lat: map<string, Number> := map[];
      var long: map<string, Number> := map[];
      var i := 0;
      while i < |cities|
        invariant 0 <= i <= |cities|
        invariant demand == DemandOf(cities[..i], parse)
        invariant lat == CoordOf(cities[..i], parse, LatCell)
        invariant long == CoordOf(cities[..i], parse, LongCell)
      {
        var c := cities[i];
        assert cities[..i + 1][..i] == cities[..i];
        if c.city != "" {
          demand := demand[c.city := ParseOrZero(c.demand, parse)];
          if CellTruthy(c.lat) {
            lat := lat[c.city := ParseFloat(c.lat, parse)];
          }
          if CellTruthy(c.long) {
            long := long[c.city := ParseFloat(c.long, parse)];
          }
        }
        i := i + 1;
      }
      assert cities[..i] == cities;

      var groups: Groups<string, string> := [];
      i := 0;
      while i < |routeCities|
        invariant 0 <= i <= |routeCities|
        invariant groups == Group(RouteCityPairs(routeCities[..i]))
      {
        var rc := routeCities[i];
        assert routeCities[..i + 1][..i] == routeCities[..i];
        if rc.route != "" && rc.city != "" {
          groups := Add(groups, rc.route, rc.city);
          var before := RouteCityPairs(routeCities[..i]);
          assert RouteCityPairs(routeCities[..i + 1]) == before + [(rc.route, rc.city)];
          assert (before + [(rc.route, rc.city)])[..|before|] == before;
          assert Group(before + [(rc.route, rc.city)]) == Add(Group(before), rc.route, rc.city);
        } else {
          assert RouteCityPairs(routeCities[..i + 1]) == RouteCityPairs(routeCities[..i]);
        }
        i := i + 1;
      }
      assert routeCities[..i] == routeCities;

      var capacity: map<string, Number> := map[];
      var cost: map<string, Number> := map[];
      i := 0;
      while i < |routeTrucks|
        invariant 0 <= i <= |routeTrucks|
        invariant capacity == AmountsOf(routeTrucks[..i], parse, CapacityCell)
        invariant cost == AmountsOf(routeTrucks[..i], parse, CostCell)
      {
        var rt := routeTrucks[i];
        assert routeTrucks[..i + 1][..i] == routeTrucks[..i];
        if rt.route != "" && rt.truckType != "" {
          var key := CompoundKey(rt.route, rt.truckType);
          capacity := capacity[key := ParseOrZero(rt.capacity, parse)];
          cost := cost[key := ParseOrZero(rt.cost, parse)];
          assert CostCell(rt) == rt.cost && CapacityCell(rt) == rt.capacity;
        }
        i := i + 1;
      }
      assert routeTrucks[..i] == routeTrucks;

      x := InputData(CityNames(cities), demand, lat, long, Firsts(groups), FirstSeen(TruckNames(routeTrucks)),
                     groups, TruckPairs(routeTrucks), capacity, cost);
    }
  }

  /** One push of the inner loop of `Load`: the row for `members[j]` extends the rows built so far. */
  lemma PushRouteCity(done: seq<(string, string)>, route: string, members: seq<string>, j: int)
    requires 0 <= j < |members|
    ensures RouteCityRows(done + Pairs(route, members[..j + 1]))
         == RouteCityRows(done + Pairs(route, members[..j])) + [RouteCityRow(route, members[j])]
  {
    var before := done + Pairs(route, members[..j]);
    assert done + Pairs(route, members[..j + 1]) == before + [(route, members[j])];
    assert (before + [(route, members[j])])[..|before|] == before;
  }
}
