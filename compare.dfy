/**
  The comparison page: when it asks the server for a comparison, when it
  shows one, and the percentage change it prints between two scenarios'
  metrics. Percentages are exact reals; their one-decimal text is not
  modelled.
*/
module Compare {
  import opened Values
  import opened Schema

  datatype Direction = Up | Down | Neutral

  datatype Difference = Difference(percent: real, direction: Direction)

  function Abs(r: real): (a: real)
    ensures a >= 0.0 && (a == r || a == -r)
  {
    if r < 0.0 then -r else r
  }

  /**
    `calculateDifference(value1, value2)`: no change when either value is
    falsy (absent, 0 or NaN); otherwise the size of the relative change from
    `value1` to `value2` in percent, and the sign of that relative change.
  */
  function CalculateDifference(value1: Option<Number>, value2: Option<Number>): (d: Difference)
    ensures d.percent >= 0.0
    ensures !(Present(value1) && Present(value2)) ==> d == Difference(0.0, Neutral)
    ensures Present(value1) && Present(value2) ==>
      d.percent * Abs(value1.value.v) == Abs(value2.value.v - value1.value.v) * 100.0
    ensures d.direction == Neutral <==> !(Present(value1) && Present(value2)) || value1 == value2
  {
    if !Present(value1) || !Present(value2) then Difference(0.0, Neutral)
    else
      var v1 := value1.value.v;
      var v2 := value2.value.v;
      var diff := (v2 - v1) / v1 * 100.0;
      assert diff * v1 == (v2 - v1) * 100.0;
      assert Abs(diff) * Abs(v1) == Abs(v2 - v1) * 100.0 by {
        AbsProduct(diff, v1);
        AbsProduct(v2 - v1, 100.0);
      }
      Difference(Abs(diff), if diff > 0.0 then Up else if diff < 0.0 then Down else Neutral)
  }

  lemma AbsProduct(a: real, b: real)
    ensures Abs(a * b) == Abs(a) * Abs(b)
  {
    if a < 0.0 && b < 0.0 {
      assert a * b == (-a) * (-b);
    } else if a < 0.0 && b >= 0.0 {
      assert -(a * b) == (-a) * b;
    } else if a >= 0.0 && b < 0.0 {
      assert -(a * b) == a * (-b);
    }
  }

  /** With a positive baseline, the arrow points up exactly when the second value is larger. */
  lemma PositiveBaseDirection(v1: real, v2: real)
    requires v1 > 0.0 && v2 != 0.0
    ensures CalculateDifference(Some(Num(v1)), Some(Num(v2))).direction == Up <==> v2 > v1
    ensures CalculateDifference(Some(Num(v1)), Some(Num(v2))).direction == Down <==> v2 < v1
  {
    SignOfQuotient(v2 - v1, v1);
  }

  /** With a negative baseline, the arrow is reversed: it points up exactly when the second value is smaller. */
  lemma NegativeBaseDirection(v1: real, v2: real)
    requires v1 < 0.0 && v2 != 0.0
    ensures CalculateDifference(Some(Num(v1)), Some(Num(v2))).direction == Up <==> v2 < v1
    ensures CalculateDifference(Some(Num(v1)), Some(Num(v2))).direction == Down <==> v2 > v1
  {
    SignOfQuotient(v2 - v1, v1);
  }

  lemma SignOfQuotient(a: real, b: real)
    requires b != 0.0
    ensures (a / b * 100.0 > 0.0) <==> (a > 0.0 && b > 0.0) || (a < 0.0 && b < 0.0)
    ensures (a / b * 100.0 < 0.0) <==> (a > 0.0 && b < 0.0) || (a < 0.0 && b > 0.0)
  {
    var q := a / b;
    assert q * b == a;
    if q > 0.0 && b < 0.0 { assert q * b < 0.0; }
    if q < 0.0 && b < 0.0 { assert (-q) * (-b) > 0.0; }
    if q < 0.0 && b > 0.0 { assert (-q) * b > 0.0; }
  }

  /** Swapping two positive values reverses the arrow. */
  lemma SwapReversesDirection(v1: real, v2: real)
    requires v1 > 0.0 && v2 > 0.0
    ensures CalculateDifference(Some(Num(v1)), Some(Num(v2))).direction == Up
        <==> CalculateDifference(Some(Num(v2)), Some(Num(v1))).direction == Down
  {
    PositiveBaseDirection(v1, v2);
    PositiveBaseDirection(v2, v1);
  }

  // ===========================================================================
  // Opening the page and what it shows

  datatype Opening = Redirect | Request(ids: seq<string>)

  /** Without scenario ids in the navigation state the page goes back to the list; an empty id list is still sent. */
  function OnOpen(scenarioIds: Option<seq<string>>): (o: Opening)
    ensures o.Redirect? <==> scenarioIds.None?
    ensures o.Request? ==> o.ids == scenarioIds.value
  {
    match scenarioIds
    case None => Redirect
    case Some(ids) => Request(ids)
  }

  /** One entry of `comparison_metrics`; every metric may be missing. */
  datatype Metric = Metric(scenarioName: string, totalCost: Option<Number>, totalTrucks: Option<Number>,
                           routesOptimized: Option<Number>, capacityUsed: Option<Number>)

  /** The server's answer to a comparison request. */
  datatype Comparison = Comparison(scenarios: seq<Scenario>, metrics: seq<Metric>)

  datatype MetricKind = TotalCost | TotalTrucks | RoutesOptimized | CapacityUsed

  /** The difference cell of a metrics row: a computed change, or an empty cell. */
  datatype DiffCell = Delta(d: Difference) | Empty

  /** A metrics row; `diff` is `None` when the table has no difference column. */
  datatype MetricRow = MetricRow(kind: MetricKind, diff: Option<DiffCell>)

  datatype Page =
    | Unavailable
    | Loaded(warning: bool, table: Option<seq<MetricRow>>, maps: bool)

  /** `hasResults`: every compared scenario carries optimization results. */
  predicate HasResults(scenarios: seq<Scenario>) {
    forall i :: 0 <= i < |scenarios| ==> scenarios[i].results.Some?
  }

  /**
    The four metric rows. A difference column exists only for exactly two
    metric entries, and then only total cost and total trucks get a change;
    routes and capacity get an empty cell.
  */
  function MetricRows(metrics: seq<Metric>): (rows: seq<MetricRow>)
    ensures |rows| == 4
    ensures rows[0].kind == TotalCost && rows[1].kind == TotalTrucks
    ensures rows[2].kind == RoutesOptimized && rows[3].kind == CapacityUsed
    ensures forall i :: 0 <= i < 4 ==> (rows[i].diff.Some? <==> |metrics| == 2)
    ensures forall i :: 0 <= i < 4 ==> (rows[i].diff.Some? && rows[i].diff.value.Delta? <==> |metrics| == 2 && i < 2)
    ensures |metrics| == 2 ==>
      && rows[0].diff.value.d == CalculateDifference(metrics[0].totalCost, metrics[1].totalCost)
      && rows[1].diff.value.d == CalculateDifference(metrics[0].totalTrucks, metrics[1].totalTrucks)
  {
    if |metrics| == 2 then
      [MetricRow(TotalCost, Some(Delta(CalculateDifference(metrics[0].totalCost, metrics[1].totalCost)))),
       MetricRow(TotalTrucks, Some(Delta(CalculateDifference(metrics[0].totalTrucks, metrics[1].totalTrucks)))),
       MetricRow(RoutesOptimized, Some(Empty)),
       MetricRow(CapacityUsed, Some(Empty))]
    else
      [MetricRow(TotalCost, None), MetricRow(TotalTrucks, None),
       MetricRow(RoutesOptimized, None), MetricRow(CapacityUsed, None)]
  }

  /**
    What the page shows once loading ends: `None` is a failed request. With
    fewer than two scenarios it shows only an error; otherwise the metrics
    table and the maps appear exactly when every scenario has results, and a
    warning appears exactly when one has not.
  */
  function View(response: Option<Comparison>): (p: Page)
    ensures p.Unavailable? <==> response.None? || |response.value.scenarios| < 2
    ensures p.Loaded? ==> (p.table.Some? <==> HasResults(response.value.scenarios))
    ensures p.Loaded? ==> p.maps == p.table.Some? && p.warning == !p.table.Some?
    ensures p.Loaded? && p.table.Some? ==> p.table.value == MetricRows(response.value.metrics)
  {
    if response.None? || |response.value.scenarios| < 2 then Unavailable
    else
      var has := HasResults(response.value.scenarios);
      Loaded(!has, if has then Some(MetricRows(response.value.metrics)) else None, has)
  }
}
