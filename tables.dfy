/**
  The scenario editor's three row tables and the two conversions between them
  and the normalized input: `loadScenarioData` (normalized to rows) and
  `convertToInputData` (rows to normalized). The conversions are stated here
  as functions; the editor's methods compute them with loops and are proved
  equal to them.
*/
module EditTables {
  import opened Values
  import opened Strings
  import opened Grouping
  import opened Schema

  /** A numeric cell: the number loaded into it, or the text last typed into its input box. */
  datatype Cell = Value(n: Number) | Text(s: string)

  datatype CityRow = CityRow(city: string, demand: Cell, lat: Cell, long: Cell)
  datatype RouteCityRow = RouteCityRow(route: string, city: string)
  datatype RouteTruckRow = RouteTruckRow(route: string, truckType: string, capacity: Cell, cost: Cell)

  datatype Tables = Tables(cities: seq<CityRow>, routeCities: seq<RouteCityRow>, routeTrucks: seq<RouteTruckRow>)

  /** The placeholder rows the editor shows instead of an empty table. */
  const BlankCity := CityRow("", Value(Num(0.0)), Text(""), Text(""))
  const BlankRouteCity := RouteCityRow("", "")
  const BlankRouteTruck := RouteTruckRow("", "", Value(Num(0.0)), Value(Num(0.0)))

  /** The tables of a new scenario: one placeholder row each. */
  const EmptyTables := Tables([BlankCity], [BlankRouteCity], [BlankRouteTruck])

  /** JavaScript truthiness of a cell: a non-zero number, or non-empty text. */
  predicate CellTruthy(c: Cell) {
    match c
    case Value(n) => Truthy(n)
    case Text(s) => s != ""
  }

  /**
    `parseFloat(c)`: a number reads back as itself; typed text is read by
    `parse`, which stands for JavaScript's decimal parser (NaN when no number
    can be read).
  */
  function ParseFloat(c: Cell, parse: string -> Number): Number {
    match c
    case Value(n) => n
    case Text(s) => parse(s)
  }

  /** `parseFloat(c) || 0` */
  function ParseOrZero(c: Cell, parse: string -> Number): Number {
    OrZero(Some(ParseFloat(c, parse)))
  }

  function LatCell(r: CityRow): Cell { r.lat }
  function LongCell(r: CityRow): Cell { r.long }
  function CapacityCell(r: RouteTruckRow): Cell { r.capacity }
  function CostCell(r: RouteTruckRow): Cell { r.cost }

  // ===========================================================================
  // Normalized to rows (loadScenarioData)

  /** `lat_dict?.[city] || ''`: a stored coordinate, or a blank cell when it is absent, 0 or NaN. */
  function CoordCell(o: Option<Number>): Cell {
    if Present(o) then Value(o.value) else Text("")
  }

  /** The row for one entry of `cities`; demand defaults to 0. */
  function CityRowOf(x: InputData, c: string): CityRow {
    CityRow(c, Value(OrZero(Get(x.demand, c))), CoordCell(Get(x.latDict, c)), CoordCell(Get(x.longDict, c)))
  }

  function CityRows(x: InputData, cs: seq<string>): (rows: seq<CityRow>)
    ensures |rows| == |cs|
  {
    if cs == [] then [] else CityRows(x, cs[..|cs| - 1]) + [CityRowOf(x, cs[|cs| - 1])]
  }

  /** One `{route, city}` row per (route, city) pair. */
  function RouteCityRows(ps: seq<(string, string)>): (rows: seq<RouteCityRow>)
    ensures |rows| == |ps|
  {
    if ps == [] then [] else RouteCityRows(ps[..|ps| - 1]) + [RouteCityRow(ps[|ps| - 1].0, ps[|ps| - 1].1)]
  }

  /** The row for one (route, truck) pair; capacity and cost are read at its compound key, defaulting to 0. */
  function TruckRowOf(x: InputData, p: (string, string)): RouteTruckRow {
    var key := CompoundKey(p.0, p.1);
    RouteTruckRow(p.0, p.1, Value(OrZero(Get(x.capacity, key))), Value(OrZero(Get(x.cost, key))))
  }

  function TruckRows(x: InputData, ps: seq<(string, string)>): (rows: seq<RouteTruckRow>)
    ensures |rows| == |ps|
  {
    if ps == [] then [] else TruckRows(x, ps[..|ps| - 1]) + [TruckRowOf(x, ps[|ps| - 1])]
  }

  /** A converted table, or the one placeholder row when the conversion produced none. */
  function WithPlaceholder<T>(rows: seq<T>, blank: T): seq<T> {
    if |rows| > 0 then rows else [blank]
  }

  /** The tables `loadScenarioData` puts in the editor. */
  function Forward(x: InputData): Tables {
    Tables(
      WithPlaceholder(CityRows(x, x.cities), BlankCity),
      WithPlaceholder(RouteCityRows(Flatten(x.routeCities)), BlankRouteCity),
      WithPlaceholder(TruckRows(x, x.routeTrucktypes), BlankRouteTruck))
  }

  // ===========================================================================
  // Rows to normalized (convertToInputData)

  /** `cities.map(c => c.city).filter(c => c)`: the non-empty names, in row order, duplicates kept. */
  function CityNames(rows: seq<CityRow>): seq<string> {
    if rows == [] then []
    else
      var r := rows[|rows| - 1];
      CityNames(rows[..|rows| - 1]) + (if r.city != "" then [r.city] else [])
  }

  /** `demand[c.city] = parseFloat(c.demand) || 0` for every row with a name. */
  function DemandOf(rows: seq<CityRow>, parse: string -> Number): map<string, Number> {
    if rows == [] then map[]
    else
      var m := DemandOf(rows[..|rows| - 1], parse);
      var r := rows[|rows| - 1];
      if r.city != "" then m[r.city := ParseOrZero(r.demand, parse)] else m
  }

  /** `if (c.lat) lat_dict[c.city] = parseFloat(c.lat)` (with `sel` picking the lat or long cell). */
  function CoordOf(rows: seq<CityRow>, parse: string -> Number, sel: CityRow -> Cell): map<string, Number> {
    if rows == [] then map[]
    else
      var m := CoordOf(rows[..|rows| - 1], parse, sel);
      var r := rows[|rows| - 1];
      if r.city != "" && CellTruthy(sel(r)) then m[r.city := ParseFloat(sel(r), parse)] else m
  }

  /** The (route, city) pairs of the rows that have both fields set, in row order. */
  function RouteCityPairs(rows: seq<RouteCityRow>): seq<(string, string)> {
    if rows == [] then []
    else
      var r := rows[|rows| - 1];
      RouteCityPairs(rows[..|rows| - 1]) + (if r.route != "" && r.city != "" then [(r.route, r.city)] else [])
  }

  /** `routeTruckTypes.map(rt => rt.truck_type).filter(t => t)`: taken from every row, complete or not. */
  function TruckNames(rows: seq<RouteTruckRow>): seq<string> {
    if rows == [] then []
    else
      var r := rows[|rows| - 1];
      TruckNames(rows[..|rows| - 1]) + (if r.truckType != "" then [r.truckType] else [])
  }

  /** The (route, truck) pairs of the rows that have both fields set, in row order, duplicates kept. */
  function TruckPairs(rows: seq<RouteTruckRow>): seq<(string, string)> {
    if rows == [] then []
    else
      var r := rows[|rows| - 1];
      TruckPairs(rows[..|rows| - 1]) + (if r.route != "" && r.truckType != "" then [(r.route, r.truckType)] else [])
  }

  /** `capacity[route|truck] = parseFloat(rt.capacity) || 0` for every complete row (`sel` picks capacity or cost). */
  function AmountsOf(rows: seq<RouteTruckRow>, parse: string -> Number, sel: RouteTruckRow -> Cell): map<string, Number> {
    if rows == [] then map[]
    else
      var m := AmountsOf(rows[..|rows| - 1], parse, sel);
      var r := rows[|rows| - 1];
      if r.route != "" && r.truckType != "" then m[CompoundKey(r.route, r.truckType) := ParseOrZero(sel(r), parse)] else m
  }

  /** The compound keys of a list of pairs. */
  function PairKeys(ps: seq<(string, string)>): set<string> {
    set p | p in ps :: CompoundKey(p.0, p.1)
  }

  /** The normalized input `convertToInputData` builds from the tables. */
  function Reverse(t: Tables, parse: string -> Number): InputData {
    var g := Group(RouteCityPairs(t.routeCities));
    InputData(
      CityNames(t.cities),
      DemandOf(t.cities, parse),
      CoordOf(t.cities, parse, LatCell),
      CoordOf(t.cities, parse, LongCell),
      Firsts(g),
      FirstSeen(TruckNames(t.routeTrucks)),
      g,
      TruckPairs(t.routeTrucks),
      AmountsOf(t.routeTrucks, parse, CapacityCell),
      AmountsOf(t.routeTrucks, parse, CostCell))
  }

  // ===========================================================================
  // Editing one row (updateCity, updateRouteCity, updateRouteTruckType)

  datatype CityField = CityName | Demand | Lat | Long
  datatype RouteCityField = RouteOfCity | CityOfRoute
  datatype RouteTruckField = RouteOfTruck | TruckType | Capacity | Cost

  /** `row[field] = value`, where `value` is the text of the input box. */
  function SetCityField(r: CityRow, f: CityField, value: string): (r': CityRow)
    ensures r'.city == (if f == CityName then value else r.city)
    ensures r'.demand == (if f == Demand then Text(value) else r.demand)
    ensures r'.lat == (if f == Lat then Text(value) else r.lat)
    ensures r'.long == (if f == Long then Text(value) else r.long)
  {
    match f
    case CityName => r.(city := value)
    case Demand => r.(demand := Text(value))
    case Lat => r.(lat := Text(value))
    case Long => r.(long := Text(value))
  }

  function SetRouteCityField(r: RouteCityRow, f: RouteCityField, value: string): (r': RouteCityRow)
    ensures r'.route == (if f == RouteOfCity then value else r.route)
    ensures r'.city == (if f == CityOfRoute then value else r.city)
  {
    match f
    case RouteOfCity => r.(route := value)
    case CityOfRoute => r.(city := value)
  }

  function SetRouteTruckField(r: RouteTruckRow, f: RouteTruckField, value: string): (r': RouteTruckRow)
    ensures r'.route == (if f == RouteOfTruck then value else r.route)
    ensures r'.truckType == (if f == TruckType then value else r.truckType)
    ensures r'.capacity == (if f == Capacity then Text(value) else r.capacity)
    ensures r'.cost == (if f == Cost then Text(value) else r.cost)
  {
    match f
    case RouteOfTruck => r.(route := value)
    case TruckType => r.(truckType := value)
    case Capacity => r.(capacity := Text(value))
    case Cost => r.(cost := Text(value))
  }
}
