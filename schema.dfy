/**
  The normalized scenario input that the optimizer consumes, the optimizer's
  result, and the persisted scenario record.
*/
module Schema {
  import opened Values
  import opened Grouping

  /**
    `input_data` as the frontend holds it. `routeCities` is a JavaScript object
    whose key order is observed (`Object.entries`, `Object.keys`), so it is an
    insertion-ordered dictionary; the other objects are only ever looked up by
    key and are maps. `capacity` and `cost` are keyed by the compound string
    `route|truck`. A field missing from the stored object is modelled as empty.
  */
  datatype InputData = InputData(
    cities: seq<string>,
    demand: map<string, Number>,
    latDict: map<string, Number>,
    longDict: map<string, Number>,
    routes: seq<string>,
    truckTypes: seq<string>,
    routeCities: Groups<string, string>,
    routeTrucktypes: seq<(string, string)>,
    capacity: map<string, Number>,
    cost: map<string, Number>)

  /** The summary metrics of an optimization run; the selected routes are not modelled. */
  datatype OptResult = OptResult(
    totalCost: Number,
    totalTrucks: Number,
    totalCapacityUsed: Number,
    routesOptimized: nat)

  /** A persisted scenario; `results` is absent until an optimization has been saved with it. */
  datatype Scenario = Scenario(
    id: string,
    name: string,
    description: string,
    inputData: InputData,
    results: Option<OptResult>)
}
