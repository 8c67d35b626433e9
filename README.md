# Route optimization: verified model of the scenario logic

This project models the logic of a route-planning application in Dafny. The optimizer itself is treated as opaque. The application has two halves:

- **The React frontend** lets a planner:
  - edit a scenario in three row tables: cities, route-city rows, and route/truck-type rows;
  - upload several Excel workbooks in one batch;
  - pick up to three saved scenarios and compare their metrics.
- **The FastAPI backend** parses the workbooks, orders a route's cities by nearest neighbour, and converts tuple-keyed dictionaries to JSON.

The model has these modules:

- `Values` (values.dfy)
  - JavaScript numbers, including NaN, and truthiness.
  - `x || 0` and optional lookups.
- `Strings` (strings.dfy)
  - The compound key `route|truck`, and why it is ambiguous.
  - The Excel file-name test.
  - Removing the extension from a file name.
- `Grouping` (grouping.dfy)
  - Insertion-ordered dictionaries of lists: JavaScript objects whose key order is observed, and Python dicts built with `setdefault(...).append`.
  - Their grouping and flattening.
- `Lists` (lists.dfy): removal by index, and the order-preserving `filter` (`Filter`, with `FilterMembers` and `FilterAppend`) that the upload queue and the comparison selection use.
- `Schema` (schema.dfy): the normalized `input_data`, the optimization result, and a stored scenario.
- `EditTables` (tables.dfy)
  - The editor's row tables.
  - `loadScenarioData` (`Forward`) and `convertToInputData` (`Reverse`) as specification functions.
  - The per-field row edits.
- `Conversion` (conversion.dfy)
  - What each conversion promises.
  - The load-then-convert round trip.
  - Two invariants:
    - the editor opens with no empty table, whether it loads a scenario or starts a new one (removing the last row can still empty a table);
    - capacity and cost are keyed by exactly the compound keys of the pairs.
- `Editor` (editor.dfy): the editor page as a class with three table fields.
  - Its loops are proved equal to `Forward` and `Reverse`.
- `MultiUpload` (multiupload.dfy): the batch upload page as a class.
  - Each file's three HTTP requests are summed up as one `Outcome`: `UploadNotOk | Throws | Ok(data, result, id)`.
- `Compare` (compare.dfy)
  - The percentage change between two scenarios.
  - The guards of the comparison page.
  - Which table rows get a difference cell.
- `ScenarioList` (scenarios.dfy)
  - The comparison selection: at most three distinct ids.
  - The guards of compare, rename, duplicate and view-results.
- `Server` (server.py helpers, in server.dfy)
  - The upload guards.
  - `route_cities` grouping.
  - Key serialisation.
  - `city_coordinates`.
  - Nearest-neighbour ordering.

Five behaviours of the code as written are worth knowing. The model follows the code in each case.

- **The arrow of a change follows the sign of `(v2 - v1) / v1`, not of `v2 - v1`.** With a negative baseline, the arrow points up when the value falls (`NegativeBaseDirection`).
- **A coordinate stored as 0 is lost when a scenario is loaded into the editor.** `lat_dict?.[city] || ''` turns 0 into a blank cell, and a blank cell is left out on save (`ZeroLatitudeDropped`). A demand of 0 or NaN also comes back as 0.
- **The round trip needs no "distinct pairs" condition.** A pair listed twice in `route_trucktypes` comes back twice. `capacity` and `cost` still come back equal, because both rows read the same compound key.
- **Only two of the three sheets named in the "Unsupported Excel format" message are checked.** The message names `Cities`, `Route_Cities` and `Route_TruckTypes`, but the check is on the first two only. A workbook without `Route_TruckTypes` fails later, while being read, and gets a different 400 error (`CheckUpload`).
- **The backend shown never answers an upload with `success: false`.** Every refusal of `upload_excel` is an HTTP 400. The `except Exception` at backend/server.py:302-303 also wraps the format refusal as "Error parsing Excel". Axios raises on a 400, so with this backend `UploadNotOk` never occurs: one bad workbook ends the whole batch as `Throws`, and the scenarios saved before it are not recorded. The model keeps `UploadNotOk` because the page handles it (frontend/src/pages/MultiUploadPage.js:54-57).

## Model

| member | source | states |
|---|---|---|
| Strings.CompoundKeyInjective | frontend/src/pages/EditScenarioPage.js:50 | Two (route, truck) pairs whose routes contain no `\|` share a compound key only when they are the same pair |
| Strings.CompoundKeyCollision | frontend/src/pages/EditScenarioPage.js:140 | The pairs `("a\|b","c")` and `("a","b\|c")` differ but share the key `a\|b\|c` |
| Strings.StripExcelExtension | frontend/src/pages/MultiUploadPage.js:63 | The scenario name is a prefix of the file name. Exactly 5 characters go when it ends in `.xlsx` in any case, exactly 4 when it ends in `.xls`, otherwise it is unchanged |
| Strings.StripExcelExtensionOf | frontend/src/pages/MultiUploadPage.js:63 | `base + ext` becomes `base` for every spelling of `.xlsx`/`.xls` in any letter case |
| Lists.RemoveAt | frontend/src/pages/EditScenarioPage.js:68-70 | Filtering out index `i` deletes exactly that element and keeps the others in order. An index outside the list removes nothing |
| Grouping.GroupLookup | frontend/src/pages/EditScenarioPage.js:121-127 | Each group holds exactly the values paired with its key, in input order, duplicates kept (the reference `Select`) |
| Grouping.GroupKeys | frontend/src/pages/EditScenarioPage.js:129 | The grouping's keys are the distinct first components in first-seen order |
| Grouping.GroupShape | frontend/src/pages/EditScenarioPage.js:121-127 | The grouping has distinct keys and no empty list, and its keys are exactly the keys that occur |
| Grouping.FirstSeenMembers | frontend/src/pages/EditScenarioPage.js:130 | `[...new Set(xs)]` is duplicate-free and has the same members as `xs` |
| Grouping.GroupFlatten | frontend/src/pages/EditScenarioPage.js:42-47 | Regrouping a flattened dictionary with distinct keys and no empty list gives that dictionary back |
| Conversion.CityNamesSpec | frontend/src/pages/EditScenarioPage.js:108 | `cities` has exactly the non-empty row names as members. With no blank name it is the name column itself. A single row gives its name exactly when it is non-empty |
| Conversion.CityNamesAppend | frontend/src/pages/EditScenarioPage.js:108 | `cities` of concatenated tables is the concatenation. With the one-row case, it is the named rows' names in row order, repeated names kept |
| Conversion.DemandOfSpec | frontend/src/pages/EditScenarioPage.js:113-115 | Demand keys are the non-empty names. The last row of a name decides its value. Every value is truthy or 0, so unreadable text becomes 0 |
| Conversion.CoordOfSpec | frontend/src/pages/EditScenarioPage.js:116-117 | A coordinate is kept only for a named row with a filled cell. The last filled row of a name decides it, and a blank cell never erases it |
| Conversion.TruckNamesSpec | frontend/src/pages/EditScenarioPage.js:130 | `truck_types` is duplicate-free, and its members are exactly the non-empty truck names of all rows |
| Conversion.AmountsOfSpec | frontend/src/pages/EditScenarioPage.js:132-144 | Every complete row's pair is in `route_trucktypes`. The `capacity`/`cost` keys are the compound keys of those pairs, and the last row with a key decides its value |
| Conversion.TruckPairsSpec | frontend/src/pages/EditScenarioPage.js:132-134 | Every pair in `route_trucktypes` has a non-empty route and truck type. A single row gives its pair exactly when both fields are set |
| Conversion.TruckPairsAppend | frontend/src/pages/EditScenarioPage.js:132-134 | `route_trucktypes` of concatenated tables is the concatenation. With the one-row case, it is exactly the complete rows' pairs in row order, repeated pairs kept |
| Conversion.RouteCityPairsAppend | frontend/src/pages/EditScenarioPage.js:122-126 | The rows fed to `route_cities` are the complete rows' pairs in row order: the selection splits over concatenation |
| Conversion.ReverseKeyInvariant | frontend/src/pages/EditScenarioPage.js:136-144 | After conversion, `capacity` and `cost` are keyed by exactly the compound keys of `route_trucktypes` |
| Conversion.ReverseRouteCities | frontend/src/pages/EditScenarioPage.js:121-129 | `route_cities` groups the complete rows by route, and `routes` is its key list in first-seen order. Keys are distinct and no list is empty. Each list is the reference selection of that route's cities |
| Conversion.LoadedTables | frontend/src/pages/EditScenarioPage.js:33-62 | One city row per city, in order. Demand defaults to 0; a coordinate is blank when absent or 0. One route-city row per list member. One truck row per pair, with amounts read at its compound key. An empty table gets the single placeholder row |
| Conversion.FlattenSpec | frontend/src/pages/EditScenarioPage.js:42-47 | The flattened rows list every route's members route after route. Member `j` of route `i` sits at that route's offset plus `j` |
| Conversion.BlankCityIgnored | frontend/src/pages/EditScenarioPage.js:64-66 | A row added by `addCity` leaves the converted input unchanged |
| Conversion.BlankRouteCityIgnored | frontend/src/pages/EditScenarioPage.js:78-80 | A row added by `addRouteCity` leaves the converted input unchanged |
| Conversion.BlankRouteTruckIgnored | frontend/src/pages/EditScenarioPage.js:92-94 | A row added by `addRouteTruckType` leaves the converted input unchanged |
| Conversion.PlaceholdersVanish | frontend/src/pages/EditScenarioPage.js:27-29 | The placeholder rows contribute no city, pair, truck name or amount |
| Conversion.CityTableBack | frontend/src/pages/EditScenarioPage.js:35-40 | Loading then converting gives back `cities`, with one demand per city (its value or 0) |
| Conversion.CoordsBack | frontend/src/pages/EditScenarioPage.js:38-39 | Loading then converting keeps exactly the cities with a present, truthy coordinate, at their stored values |
| Conversion.RouteCitiesBack | frontend/src/pages/EditScenarioPage.js:42-47 | Loading then converting gives back `route_cities` unchanged |
| Conversion.AmountsBack | frontend/src/pages/EditScenarioPage.js:49-57 | Loading then converting gives back a `capacity`/`cost` map keyed exactly by the pairs unchanged |
| Conversion.RoundTrip | frontend/src/pages/EditScenarioPage.js:106-158 | For a well-formed input, load then convert returns `cities`, `route_cities`, `route_trucktypes`, `capacity` and `cost` unchanged. `routes` comes back as the route keys and `truck_types` as the distinct truck names. Demand comes back for every city; coordinates only where present and truthy |
| Conversion.ZeroLatitudeDropped | frontend/src/pages/EditScenarioPage.js:38 | A city stored at latitude 0 comes back without a latitude, while its longitude survives |
| Editor.ScenarioEditor.constructor | frontend/src/pages/EditScenarioPage.js:22-31 | The editor opens on the loaded tables, or on one placeholder row per table when there is no input. No table starts empty |
| Editor.ScenarioEditor.Load | frontend/src/pages/EditScenarioPage.js:33-62 | The nested push loops and the maps build exactly `Forward(x)`, and no table is left empty |
| Editor.ScenarioEditor.AddCity | frontend/src/pages/EditScenarioPage.js:64-66 | One blank city row is appended; the other tables are unchanged |
| Editor.ScenarioEditor.RemoveCity | frontend/src/pages/EditScenarioPage.js:68-70 | Exactly row `index` goes; the other tables are unchanged |
| Editor.ScenarioEditor.UpdateCity | frontend/src/pages/EditScenarioPage.js:72-76 | Only the given field of row `index` changes |
| Editor.ScenarioEditor.AddRouteCity | frontend/src/pages/EditScenarioPage.js:78-80 | One blank route-city row is appended; the other tables are unchanged |
| Editor.ScenarioEditor.RemoveRouteCity | frontend/src/pages/EditScenarioPage.js:82-84 | Exactly row `index` goes; the other tables are unchanged |
| Editor.ScenarioEditor.UpdateRouteCity | frontend/src/pages/EditScenarioPage.js:86-90 | Only the given field of row `index` changes |
| Editor.ScenarioEditor.AddRouteTruckType | frontend/src/pages/EditScenarioPage.js:92-94 | One blank truck row is appended; the other tables are unchanged |
| Editor.ScenarioEditor.RemoveRouteTruckType | frontend/src/pages/EditScenarioPage.js:96-98 | Exactly row `index` goes; the other tables are unchanged |
| Editor.ScenarioEditor.UpdateRouteTruckType | frontend/src/pages/EditScenarioPage.js:100-104 | Only the given field of row `index` changes |
| Editor.ScenarioEditor.ConvertToInputData | frontend/src/pages/EditScenarioPage.js:106-158 | The three `forEach` loops build exactly `Reverse` of the tables, whose properties the Conversion lemmas state |
| EditTables.SetCityField | frontend/src/pages/EditScenarioPage.js:72-76 | Only field `f` takes the typed text; every other field keeps its value |
| EditTables.SetRouteCityField | frontend/src/pages/EditScenarioPage.js:86-90 | Only field `f` of the route-city row takes the typed text; the other field keeps its value |
| EditTables.SetRouteTruckField | frontend/src/pages/EditScenarioPage.js:100-104 | Only field `f` of the route-truck row takes the typed text; every other field keeps its value |
| MultiUpload.ExcelFilesMembers | frontend/src/pages/MultiUploadPage.js:18-20 | The kept files are exactly the selected files named `*.xlsx`/`*.xls` (case-sensitive). Nothing is dropped exactly when every file is Excel. A single file is kept exactly when it is Excel |
| MultiUpload.ExcelFilesAppend | frontend/src/pages/MultiUploadPage.js:18-20 | The filter splits over concatenation. With the one-file case, the kept files are in selection order, repeated files kept |
| MultiUpload.SavedScenario | frontend/src/pages/MultiUploadPage.js:63-69 | The saved scenario has the file's data, result and id, and description `Auto-created from <file>`. Its name is the file name with one trailing `.xlsx` or `.xls` removed, in any letter case, and the whole file name otherwise |
| MultiUpload.Classify | frontend/src/pages/MultiUploadPage.js:79-86 | Two or more scenarios lead to comparison with their ids in order; exactly one to the scenario list; none to no navigation |
| MultiUpload.UploadPage.constructor | frontend/src/pages/MultiUploadPage.js:11-13 | The page starts with no files, no saved scenarios and not uploading |
| MultiUpload.UploadPage.HandleFilesSelect | frontend/src/pages/MultiUploadPage.js:16-27 | `files` becomes the Excel files, with one warning exactly when a file was dropped |
| MultiUpload.UploadPage.RemoveFile | frontend/src/pages/MultiUploadPage.js:29-31 | Exactly file `index` is removed |
| MultiUpload.UploadPage.ProcessFiles | frontend/src/pages/MultiUploadPage.js:44-75 | The `for` loop with `continue`, and the exit at the first raise, compute exactly `Run` over all files |
| MultiUpload.UploadPage.HandleUploadAll | frontend/src/pages/MultiUploadPage.js:33-93 | An empty list gets an error before any request. A raise adds "Upload process failed" and records and navigates nothing. A completed batch records its scenarios and navigates as `Classify` says. The busy flag is cleared either way |
| MultiUpload.RunSpec | frontend/src/pages/MultiUploadPage.js:44-75 | The batch fails exactly when a file's requests raise. It saves one scenario per successful file before that, in file order, skipping refused uploads. It shows one toast per processed file |
| MultiUpload.RunNotices | frontend/src/pages/MultiUploadPage.js:55-74 | The toast for file `j` is its upload failure or `<name> completed (j+1/N)` |
| MultiUpload.SavedBound | frontend/src/pages/MultiUploadPage.js:72 | Never more saved scenarios than files. Without a raise, exactly one per successful file |
| MultiUpload.RefusedUploadSkipped | frontend/src/pages/MultiUploadPage.js:54-57 | A refused upload at any position only skips its own file. Turning it into a success keeps the failure flag and the toast count. A batch that never reaches the file saves the same scenarios. Otherwise the file's scenario is inserted after those of the earlier files, and every other scenario keeps its place |
| Compare.CalculateDifference | frontend/src/pages/ComparePage.js:46-53 | A falsy value gives `(0, neutral)`. Otherwise percent times `\|v1\|` equals `\|v2 - v1\|` times 100, percent is never negative, and the direction is neutral exactly when the values are equal |
| Compare.PositiveBaseDirection | frontend/src/pages/ComparePage.js:48-51 | With `v1 > 0` the arrow is up exactly when `v2 > v1` and down exactly when `v2 < v1` |
| Compare.NegativeBaseDirection | frontend/src/pages/ComparePage.js:48-51 | With `v1 < 0` the arrow is reversed: up exactly when `v2 < v1` |
| Compare.SwapReversesDirection | frontend/src/pages/ComparePage.js:46-53 | For positive values, swapping them turns up into down |
| Compare.OnOpen | frontend/src/pages/ComparePage.js:26-32 | Without scenario ids the page redirects, and otherwise requests exactly those ids |
| Compare.MetricRows | frontend/src/pages/ComparePage.js:108-190 | Four rows. A difference cell exists exactly when there are two metric entries, and only cost and trucks get a computed change |
| Compare.View | frontend/src/pages/ComparePage.js:63-71 | Nothing is shown for a failed request or fewer than two scenarios. The table and maps are shown exactly when every scenario has results, otherwise a warning |
| ScenarioList.WithoutSpec | frontend/src/pages/ScenariosPage.js:85 | The filter removes every copy of `id` and keeps the other ids. It changes nothing when `id` is absent, preserves distinctness and shortens a distinct list by one |
| ScenarioList.WithoutAppend | frontend/src/pages/ScenariosPage.js:85 | The filter splits over concatenation, so the remaining ids keep their order (the order that makes the first id the comparison baseline) |
| ScenarioList.WithoutAt | frontend/src/pages/ScenariosPage.js:85 | In a selection without repeats, removing `id` cuts it out at its position and leaves the ids before and after it in place |
| ScenarioList.Toggle | frontend/src/pages/ScenariosPage.js:82-93 | A selected id is removed. An unselected id is appended when fewer than three are selected; otherwise the selection is unchanged |
| ScenarioList.ToggleKeepsValid | frontend/src/pages/ScenariosPage.js:82-93 | Toggling keeps at most three distinct ids. Afterwards `id` is selected exactly when it was not before and there was room |
| ScenarioList.ToggleTwice | frontend/src/pages/ScenariosPage.js:84-87 | Toggling an unselected id twice, with room, restores the selection |
| ScenarioList.Selection.constructor | frontend/src/pages/ScenariosPage.js:13 | The selection starts empty and valid |
| ScenarioList.Selection.ToggleComparisonSelection | frontend/src/pages/ScenariosPage.js:82-93 | The selection becomes `Toggle` of the old one and stays valid. An error is logged exactly when a fourth id was refused |
| ScenarioList.Selection.HandleCompare | frontend/src/pages/ScenariosPage.js:95-101 | Fewer than two selected gives an error and no target. Otherwise the target is the selection in order |
| ScenarioList.CompareTarget | frontend/src/pages/ScenariosPage.js:95-101 | There is no target exactly when fewer than two ids are selected, and otherwise the target is the selection itself |
| ScenarioList.RenameRequest | frontend/src/pages/ScenariosPage.js:61-63 | A rename is sent exactly when the answer is neither cancelled, empty nor the current name. Accepting the offered name sends nothing |
| ScenarioList.DuplicateRequest | frontend/src/pages/ScenariosPage.js:44-46 | Accepting sends `Copy of <name>`. Cancelling or an empty name sends nothing. Typed text is sent as is |
| ScenarioList.ViewResults | frontend/src/pages/ScenariosPage.js:74-80 | Results are shown exactly when the scenario has them |
| Server.CheckUpload | backend/server.py:61-101 | A non-Excel name is refused first, by the guard at backend/server.py:271-272, then a workbook lacking `Cities` or `Route_Cities`. Only with all three sheets does parsing go ahead |
| Server.GroupRouteCities | backend/server.py:87-89 | The `setdefault(...).append` loop gives each route's cities in row order with duplicates. Routes are in first-seen order, with no empty list |
| Server.PairsToLists | backend/server.py:285 | Each tuple becomes the two-element list of its parts, in order |
| Server.SerializeKeys | backend/server.py:288-289 | The string keys are exactly the `r\|t` keys of the dictionary's tuples |
| Server.SerializeKeysLossless | backend/server.py:288-289 | When no route contains `\|`, every tuple's value is found unchanged under its string key |
| Server.SerializeKeysCollision | backend/server.py:288-289 | With `\|` in a route, two distinct tuples collapse onto one key and the earlier value is lost |
| Server.CityCoordinates | backend/server.py:247-250 | The keys are exactly the cities present in both coordinate dictionaries, each mapped to `(lat, long)` |
| Server.StartCity | backend/server.py:133 | The tour starts at `start` exactly when it is given, non-empty and listed, and at the first city otherwise |
| Server.SortCitiesNearestNeighbor | backend/server.py:127-146 | Empty input gives `[]`. Otherwise the tour starts at the start city and visits every distinct city exactly once. Each step goes to a nearest unvisited city, and ties may go either way |

## Left out

- The OR-Tools model, its solve and the extraction of results (`optimize_routes` apart from `city_coordinates`):
  - the solver is foreign code and its figures are floating point;
  - `optimize_routes` appears only as the `result` carried by an `Ok` outcome.
- The haversine distance. `SortCitiesNearestNeighbor` takes any distance function `dist`.
  - A city missing from `coords`, which raises `KeyError` in the source, is not modelled.
- Geocoding, pandas reading of the workbook, MongoDB, the Excel export and temporary files: I/O and foreign libraries.
  - `CheckUpload` takes the file name and the sheet names as its inputs.
  - Reading the cells, and the `int(...)` truncation of capacity and cost, are not modelled.
- The scenario CRUD endpoints are not part of this model.
  - A saved scenario is taken to be the record the page sent, with the id from the `Ok` outcome, rather than the server's echo.
- React rendering, `useEffect`, and asynchronous `setState`:
  - state setters are synchronous field assignments;
  - toasts are an append-only `notices` log;
  - navigation is a returned or stored destination.
- `toFixed(1)` and `toLocaleString`. Percentages are exact reals.
- `parseFloat` on typed text is the parameter `parse`. JavaScript's decimal parser is not modelled.
- Infinity is not modelled. Numbers are reals or NaN.
- The integer-like key reordering of JavaScript objects is not modelled. Keys keep insertion order.
- EditTables.Forward, EditTables.Reverse and Conversion.RoundTrip treat JavaScript objects as plain maps. Names of `Object.prototype` members therefore behave differently in the source:
  - a route named `constructor`, `toString` or `__proto__` makes `routeCitiesMap[rc.route].push` throw, so the save fails;
  - a city named `toString` with no stored latitude loads the inherited function into its cell, and it is saved as NaN;
  - `demand["__proto__"] = v` is ignored.
- The backend's `routes` and `truck_types` use `list(set(...))`, whose order is unspecified. The frontend's order is modelled.
- Editor.ScenarioEditor.UpdateCity: the row is replaced by value.
  - The source mutates the shared row object inside a shallow copy of the array, so the old array's row changes too; that aliasing is not modelled.
  - An index outside the table, which throws in the source, is excluded by `requires`.
  - The same applies to UpdateRouteCity and UpdateRouteTruckType.
- `handleSave`'s empty-name guard and `handleDelete`'s confirmation belong to the CRUD calls and are not modelled.
- MultiUpload.UploadPage.HandleUploadAll: the toasts of the files processed before a raise are appended at the end, in their order, rather than interleaved with the requests.
- Compare.View: the loading state and the error toast of a failed request are not modelled.
  - A failed request is `None`.
  - What each metric cell prints is not modelled, only which cells exist.
- Conversion.RoundTrip assumes a stored input whose identifiers are non-empty.
  - Every route in that input lists at least one city, and `capacity`/`cost` hold a number for exactly its pairs.
  - Other inputs come back normalized as `Conversion.LoadedTables` and the `Reverse` lemmas describe.
