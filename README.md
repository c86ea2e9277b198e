# MBTA LED map — a Dafny model of its decision logic

The LED map polls the MBTA vehicle API, lights an LED on a physical map for
vehicles on the tracked routes, commits the LED driver's buffer, waits, and
clears the LEDs again. A companion script downloads the stops of each route
from the TransitLand API and writes the stop table (`stop_id, stop_name,
led_id`) that an operator completes by hand with the wiring.

This project models the decision logic of both scripts with the I/O replaced
by plain values, and proves what that logic does:

- `yaml_keys.dfy` (module `YamlKeys`): the keys of `lines.yml` as YAML loads
  them (string, integer or boolean) and Python's `str()` of them.
- `led_tick.dfy` (module `LedMap`, from `main.py`): the in-place
  stringification of the tracked-route list, the stop-table lookup, and one
  iteration of the refresh loop over a `Tlc5947` object. That object holds the
  channel buffer as an `array<int>` and the list of frames committed by
  `write()`. `Tick` is proved against the specification function `TickSpec`,
  and the lemmas beside it state what a tick does.
- `stop_ids.dfy` (module `StopIds`, from `download_stop_ids.py`): the request
  URL, and the loop that builds `stop_list` and reports the entries whose
  answer holds no route. `BuildStopList` is proved against the functions
  `StopList` and `Diagnostics`.

Behaviour of the code as written, which the model keeps:

- main.py tracks the **keys** of `lines.yml`, turned into strings. The
  downloader requests the **values** (TransitLand OneStop ids) and uses the
  keys only in its error message.
- The LED lookup is keyed on the constant stop `"70061"`, not on the vehicle's
  stop. The label-based `.loc[0, "led_id"]` after the boolean filter finds a
  row only when row 0 of the table has that stop id. Otherwise it raises
  `KeyError`, which leaves the endless loop: in the model, `Tick` returns
  `Err` before anything is written, committed or cleared.
- LED ids `0` (the downloader's placeholder) and `-1` are skipped in both the
  turn-on pass and the clear pass.
- The clear pass runs after the commit, so its zeros reach the hardware only
  with the next tick's `write()`.

The code does not look up each vehicle's own stop, does not reject duplicate
stop ids, does not keep running through a failed feed request, and does not
clear the LEDs on shutdown. It also does not compare the new set of lit LEDs
with the previous one: every tick lights, commits and clears again from
scratch. The model has none of these either.

## Model

| member | source | states |
|---|---|---|
| `YamlKeys.NatDecimal` | main.py:48 | the decimal text of a natural number is non-empty, all digits, with no leading zero; `ParseDecimal` inverts it (`DecimalRoundTrip`) |
| `YamlKeys.PyStr` | main.py:48 | the string form of an integer key starts with `-` iff the key is negative, and the rest is all digits |
| `YamlKeys.DecimalRoundTrip` | main.py:47-48 | the decimal text `str()` gives an integer key reads back as that integer |
| `YamlKeys.IntKeysStringifyApart` | main.py:47-48 | two different integer keys never stringify to the same route id |
| `LedMap.NormaliseLines` | main.py:45-48 | the route list is rewritten in place, each entry replaced by the string form of its key |
| `LedMap.TrackedAfterNormalising` | main.py:45-48 | after normalising, a route is tracked iff it equals the string form of some key, with exact equality and no prefix match |
| `LedMap.IntegerKeyTracksItsDecimal` | main.py:47-48 | once normalised, an integer key tracks a route iff the route id equals its `str()` text, so no other integer's route and no string such as "0742" |
| `LedMap.MatchingLabels` | main.py:77 | the filtered frame holds exactly the row labels whose stop id equals the key |
| `LedMap.MaskThenLoc` | main.py:77-78 | masking on a stop id and then reading `.loc[l, "led_id"]` finds label `l` iff row `l` of the original table has that stop id, and then reads that row's led id (labels are kept, not renumbered) |
| `LedMap.Lookup` | main.py:77-78 | the lookup succeeds iff the table is non-empty and row 0 has stop id "70061"; it then yields row 0's led id, otherwise a missing-label-0 error |
| `LedMap.Light` | main.py:77-80 | a tracked vehicle's lookup fails iff row 0 does not have stop id "70061"; on success a non-sentinel row-0 led id is set to LED_BRIGHTNESS, and no other channel (channel 0 included) changes |
| `LedMap.Step` | main.py:73-80 | a vehicle on an untracked route leaves the buffer as it was; a failure happens only for a tracked vehicle, and is the missing-label-0 error |
| `LedMap.TurnOnPass` | main.py:64-80 | the vehicle-by-vehicle pass keeps the buffer's length |
| `LedMap.LightIdempotent` | main.py:79-80 | setting the same channel to LED_BRIGHTNESS a second time changes nothing |
| `LedMap.TurnOnPassIsOneLight` | main.py:64-80 | the whole pass equals a single tracked vehicle's effect, or leaves the buffer as it was when no vehicle is on a tracked route |
| `LedMap.TurnOnPassEffect` | main.py:73-80 | the pass fails iff some vehicle is tracked and row 0 does not have stop id "70061"; when it succeeds, the buffer gets LED_BRIGHTNESS at row 0's led id iff a vehicle is tracked and that id is not a sentinel, and is otherwise unchanged |
| `LedMap.TurnOnPassChangesOneChannel` | main.py:77-80 | any channel the pass changes is row 0's led id, is not the sentinel 0, requires a tracked vehicle, and now holds LED_BRIGHTNESS |
| `LedMap.UntrackedVehicleHasNoEffect` | main.py:73-74 | removing a vehicle on an untracked route from any position of the feed does not change the outcome |
| `LedMap.VehicleStopIgnored` | main.py:68-78 | two feeds with the same routes in the same order give the same outcome, whatever stops the vehicles report |
| `LedMap.ManyVehiclesActLikeOne` | main.py:64-80 | a feed gives the same outcome as any one of its tracked vehicles alone |
| `LedMap.ClearPass` | main.py:89-91 | the clear pass keeps the buffer's length |
| `LedMap.ClearPassEffect` | main.py:89-91 | table channels are set to 0; every other channel, channel 0 included, keeps its value |
| `LedMap.ClearPassQuiesces` | main.py:89-91 | after the clear pass all table channels are 0, and clearing a buffer whose table channels are already 0 leaves it unchanged |
| `LedMap.TickEndsCleared` | main.py:55-91 | a completed tick leaves the starting buffer with its table channels cleared, whatever the feed was |
| `LedMap.TickPreservesQuiescence` | main.py:55-91 | if all table channels are 0 when a tick starts, a completed tick ends with exactly the buffer it started with |
| `LedMap.TicksStartFromPowerOn` | main.py:42-91 | the all-off buffer the driver starts with is quiescent for any table, so every completed tick returns to it |
| `LedMap.Tlc5947.constructor` | main.py:42 | a new driver has all channels at 0 and no committed frame |
| `LedMap.Tlc5947.SetChannel` | main.py:80 | an index assignment changes that channel only |
| `LedMap.Tlc5947.Write` | main.py:83 | `write()` appends the whole current buffer to the committed frames |
| `LedMap.Tick` | main.py:55-91 | one loop iteration follows TickSpec: on a failed lookup, no channel and no frame changes; otherwise exactly one frame is committed, equal to the buffer after the turn-on pass, and the buffer ends as that frame with the table channels cleared |
| `StopIds.RequestUrl` | download_stop_ids.py:37-62 | the URL is the routes base followed by the OneStop id, which can be read back from it |
| `StopIds.RequestUrlInjective` | download_stop_ids.py:62 | different OneStop ids are requested at different URLs |
| `StopIds.BuildStopList` | download_stop_ids.py:55-93 | the nested loops produce exactly StopList and Diagnostics (the body calls `fetch` once per entry of `lines.yml`, which no contract states) |
| `StopIds.RowsOfAt` | download_stop_ids.py:79-88 | row k of a route's rows copies stop k's id and name unchanged, with LED_PLACEHOLDER third |
| `StopIds.RowsHaveThreeFields` | download_stop_ids.py:43-88 | every emitted row has exactly three fields: two text fields, then LED_PLACEHOLDER = 0 |
| `StopIds.StopListConcat` | download_stop_ids.py:59-88 | the rows for two consecutive groups of entries are the first group's rows followed by the second group's, with no merging of repeated stops |
| `StopIds.DiagnosticsConcat` | download_stop_ids.py:59-93 | diagnostics come in the order of the entries |
| `StopIds.SkipsLineWithoutRoutes` | download_stop_ids.py:78-93 | an entry whose answer has an empty `routes` array adds no row, and the entries after it are still processed |
| `StopIds.ReportsLineWithoutRoutes` | download_stop_ids.py:89-93 | such an entry gets a diagnostic with its key and OneStop id, placed between the diagnostics of the entries before and after it |
| `StopIds.Printed` | download_stop_ids.py:90-93 | each diagnostic prints two lines: the first carries `str(key)` after the "Error parsing line " prefix, the second is "Current OneStop ID: " followed by the OneStop id |
| `StopIds.LaterRoutesIgnored` | download_stop_ids.py:79 | only `routes[0]` of an answer is read: two APIs whose answers agree on their first route (or both have none) give the same rows and the same diagnostics |
| `StopIds.KeysDoNotAffectRows` | download_stop_ids.py:59-62 | the rows depend only on the OneStop ids (the YAML values), never on the keys |
| `StopIds.RowCount` | download_stop_ids.py:59-107 | the number of rows is the sum of `len(routes[0].route_stops)` over the entries whose `routes` is non-empty |

## Left out

- HTTP requests, timeouts and JSON decoding in both scripts: the vehicle feed is a sequence of (route, stop) pairs, and the TransitLand API is a total function from request URL to an already-parsed `routes` array.
- `KeyError` from missing JSON fields in the vehicle feed and in the route answers: the parsed values always have these fields.
- Loading YAML and configuration, and the unused Gotify settings. YAML keys are modelled as strings, integers or booleans; floats and null keys are not modelled. The downloader's YAML values are modelled as strings, so `+` on a non-string value (a `TypeError`) is not modelled.
- pandas `read_csv` type and header inference: the stop table is a sequence of rows with named fields. The CSV is written without a header row, so the `stop_id` column may not exist as written, and an integer-typed `stop_id` column never equals the string "70061". Neither effect is modelled. Empty `led_id` cells (NaN) are not modelled either.
- CSV writing, its success message and its `PermissionError` path. The row count it reports is stated by `RowCount`.
- The printing of diagnostics: `BuildStopList` returns them as records, and `Printed` gives the two lines the script prints for each.
- The TLC5947 library and the SPI and GPIO setup. The channel count is a constructor parameter; the library fixes it from `num_drivers=7`. The library's range checks on channel index and value are not part of this model. Instead, every non-sentinel led id must lie in `[0, N)` (`TableFits`).
- `time.sleep(10)` and the endless `while True`: the model is one iteration (`Tick`) plus the lemmas that relate consecutive iterations (`TickEndsCleared`, `TickPreservesQuiescence`).
- The end of the process: the `KeyError` that stops the loop is modelled as an `Err` result of the tick, and nothing after it is modelled.
