# Vehicle breakdown monitor — Dafny model

A model of the decision logic of `app3.py`, a Streamlit page. The page replays
OBD sensor readings of one selected vehicle. A pretrained classifier labels
each reading normal or breakdown. A small rule engine explains each reading
with cause tags. The enriched readings are buffered during a session and saved
as one CSV file per session under `logs/<vehicle>/`. A Dashboard page then
summarises that vehicle's latest log.

Modules, one per component:

- `LexOrder` (`lex_order.dfy`): Python's ordering of strings, and the greatest
  name of a set, which is what `sorted(..., reverse=True)[0]` returns.
- `Timestamps` (`timestamps.dfy`): instants at one-second resolution and the
  log file name `%Y-%m-%d_%H-%M-%S_log.csv`. Sorting these names as strings
  sorts sessions by save time.
- `CauseRules` (`cause_rules.dfy`): `get_causes` as the source writes it, an
  imperative method that appends tags. It is proved equal to a rule table
  filtered by the reading. Also the primary cause (`causes[0]` or `"None"`).
- `Fleet` (`fleet.dfy`): the five vehicles and `driver_mapping`.
- `Records` (`records.dfy`): the classifier, as an uninterpreted function of
  the ten features; the enriched record; the records of an uninterrupted pass.
- `LogStore` (`log_store.dfy`): the `logs/` directory as a map from vehicle to
  folder, and a folder as a map from file name to records. Holds the
  conditional save and the latest-file choice.
- `Dashboard` (`dashboard.dfy`): the four metrics and the page's three outcomes.
- `Simulation` (`simulation.dfy`): the `running` flag, the `log_data` buffer and
  the log store, as a class. Its methods are Start, Stop and the replay loop.

Inputs the model takes as parameters:

- The classifier (`Classifier`) is a parameter.
- The wall clock is a parameter: `clock(i)` is the time row `i` is processed,
  and `clock(k)` is the time of a save after `k` rows.
- What ends a pass early is a parameter of `Run`, an `Interruption`:
  `StopBefore(k)` is a Stop press honoured before row `k` is read;
  `CutAfter(k)` is any other re-run of the page after `k` rows are buffered
  (switching the page radio, changing the vehicle selector, or the classifier
  raising), with `k` up to all the rows of the pass; `Uninterrupted` replays
  until the rows run out.

Behaviours of the code that the model keeps on purpose:

- Stop does not clear the buffer. The next Start clears it.
- Log names carry only seconds. Two saves in the same second write the same
  file, and the second replaces the first (`SameSecondSavesCollide`). No
  uniqueness is claimed.
- The cause tags are the code's strings, with `→` in them.
- A pass cut short by a re-run other than Stop leaves `running` set and saves
  nothing. The next pass replays from the first row and appends to the same
  buffer, possibly under another vehicle, so the first rows are buffered
  twice (`CutPassIsReplayedFromFirstRow`, `ReplayRepeatsCutReadings`). For
  this reason `Run` is specified against `old(logData)`, and an empty buffer
  is not assumed.
- The record keeps only the primary cause (`breakdown_cause`), not the whole
  cause list.

## Model

| member | source | states |
|---|---|---|
| `CauseRules.GetCauses` | app3.py:55-69 | the appended tags equal the reference definition: the tags of the rule table, filtered by the reading, in rule order |
| `CauseRules.Fired` | app3.py:57-68 | the filter keeps exactly the rules whose condition holds, and never more rules than it is given |
| `CauseRules.CauseListedIffRuleHolds` | app3.py:58-68 | a rule's tag is in the result if and only if its condition holds (every applicable rule fires) |
| `CauseRules.CausesInRuleOrder` | app3.py:57-69 | the result is duplicate-free, at most 5 long, and its rules are strictly ordered overheating, stall, blockage, intake air, gear issue |
| `CauseRules.NoCauseWhenStationaryAndPedalReleased` | app3.py:58-68 | speed at most 1 with pedal D at most 30 gives the empty list |
| `CauseRules.StationaryOnlyGearIssue` | app3.py:58-68 | below the speed gate only the gear-issue tag can appear, exactly when pedal D exceeds 30 |
| `CauseRules.OverheatingIsPrimary` | app3.py:58-60 | moving with coolant above 100 puts the overheating tag first, so it is the primary cause |
| `CauseRules.PrimaryCauseIsFirstFiringRule` | app3.py:155 | the primary cause is "None" if and only if no rule holds; otherwise it is the tag of the first rule in order that holds |
| `CauseRules.HotEngineExample` | app3.py:56-62 | speed 60, coolant 105, throttle 50, rpm 1000, manifold 200, intake air 30, pedal 0 gives exactly overheating then stall, overheating primary |
| `CauseRules.PrimaryCause` | app3.py:155 | the main cause is the first tag of a non-empty list and the sentinel "None" for an empty one |
| `CauseRules.TagsDistinct` | app3.py:60-68 | the five tags are pairwise distinct and none is the sentinel "None" |
| `Fleet.EveryVehicleHasADriver` | app3.py:34-41 | every selectable vehicle has a driver, and the mapping covers no other vehicle |
| `Records.Features` | app3.py:42-46 | ten values, in the trained column order of app3.py:42-46; RPM third and speed fourth |
| `Records.EnrichedRecord` | app3.py:157-163 | one record keeps the reading, time, vehicle, driver, label and probability as given; its cause is "None" exactly when no rule holds, else the first tag |
| `Records.EnrichAll` | app3.py:151-164 | one record per row, in row order: the row itself plus vehicle, driver, time, classifier label and probability, and the primary cause |
| `Records.EnrichAllSnoc` | app3.py:164 | processing one more row appends exactly that row's record |
| `Timestamps.LogNamesSortChronologically` | app3.py:86-88 | one log name is less than another as a string if and only if its save time is earlier |
| `Timestamps.LogNamesCollideExactlyWithinOneSecond` | app3.py:133-136 | two log names are equal if and only if the saves fall in the same second |
| `Timestamps.LogFileNameExample` | app3.py:133-136 | the name for 2024-03-05 14:07:09 is `2024-03-05_14-07-09_log.csv` |
| `Timestamps.LogFileName` | app3.py:133-136 | the name is 27 characters: the 19-character stamp, then `_log.csv` |
| `LexOrder.Less` | app3.py:86 | a proper prefix sorts before its extensions, and no string sorts before itself |
| `LexOrder.Greatest` | app3.py:86-88 | the chosen name is in the listing and no name in it is greater |
| `LexOrder.Total` | app3.py:86 | Python string order is total, so the reverse sort has a well-defined first element |
| `LogStore.Persist` | app3.py:129-137 | an empty buffer writes nothing; otherwise exactly one file, named after the save time, holds the buffer, and every other file is kept |
| `LogStore.SameSecondSavesCollide` | app3.py:133-137 | two saves in the same second leave one file, holding the second buffer |
| `LogStore.LatestFile` | app3.py:82-88 | nothing when the folder is missing or empty; otherwise the lexicographically greatest file name |
| `LogStore.MostRecentSessionIsLatest` | app3.py:86-88 | after saving at `at`, over files saved no later, the new file is the one the Dashboard picks |
| `Dashboard.Summarize` | app3.py:93-97 | total records is the record count; breakdown events is the number of records with prediction 1; "Avg. Speed" and "Avg. RPM" are the means of the speed and RPM columns, absent only for an empty log |
| `Dashboard.SumPredictions` | app3.py:95 | the sum of the 0/1 predictions lies between 0 and the record count |
| `Dashboard.Mean` | app3.py:96-97 | a mean is absent exactly for an empty column, and otherwise times the count gives the column's sum |
| `Dashboard.BreakdownsCounted` | app3.py:95 | the sum of the 0/1 predictions equals the number of records predicted as breakdowns |
| `Dashboard.MeanWithinBounds` | app3.py:96-97 | a mean speed or mean RPM lies between any bounds of the values |
| `Dashboard.Show` | app3.py:80-112 | "no logs" if and only if the folder is missing; "no log files" if and only if it is empty; otherwise the latest file and its summary |
| `Dashboard.SavedSessionIsReported` | app3.py:86-97 | after a save, if no other file was saved later, the Dashboard reports the saved buffer's own metrics |
| `Simulation.PassLength` | app3.py:141-147 | a pass replays at most 15000 rows and at most all rows, and equals one of the two bounds |
| `Simulation.Processed` | app3.py:141-149 | an idle page processes nothing; an uninterrupted pass processes `min(15000, rows)` rows; an interrupted one processes the rows before the interruption, and never more |
| `Simulation.Session.constructor` | app3.py:118-121 | a new session is idle with an empty buffer |
| `Simulation.Session.Start` | app3.py:123-126 | Start sets running and empties the buffer, and writes no log |
| `Simulation.Session.SaveLog` | app3.py:184-190 | the buffer is saved exactly as `Persist` describes; flag and buffer are unchanged |
| `Simulation.Session.Stop` | app3.py:129-137 | Stop clears running, keeps the buffer, and saves it only if it is non-empty |
| `Simulation.Session.ProcessRow` | app3.py:151-164 | one loop iteration appends exactly the row's enriched record; flag and store are unchanged |
| `Simulation.Session.Run` | app3.py:141-191 | the buffer grows by the records of exactly the processed rows, in order; a Stop press or running out of rows clears running and saves the buffer at that time; a pass cut by another re-run before the final save, even after its last row, leaves running set and saves nothing |
| `Simulation.StartThenStopSavesNothing` | app3.py:123-137 | Start then Stop leaves the log store unchanged, so a vehicle without logs still has none |
| `Simulation.FullRunSavesEveryRow` | app3.py:141-191 | an uninterrupted run saves one log of `min(15000, rows)` records, in row order, with the selected vehicle, its driver and each row's primary cause |
| `Simulation.ReplayRepeatsCutReadings` | app3.py:141-164 | after a pass cut after `k` rows and a replay, the first `k` records and the next `k` hold the same readings, under the first and the second vehicle |
| `Simulation.CutPassIsReplayedFromFirstRow` | app3.py:123-191 | Start, a pass cut after `k` rows (up to all of them), then a full pass leave the buffer the cut records followed by a full replay, saved once under the vehicle of the second pass |

## Left out

- All rendering: page setup, CSS, sidebar, metrics widgets, placeholder, warnings, `st.rerun` and the Altair charts (app3.py:10-25, 49-52, 72-77, 99-109, 166-178). These are UI only.
- The time series behind the three charts (app3.py:99-109). They are rendering of columns the model already stores.
- Loading the model and the data set, and the classifier's internals (app3.py:28-31, 152-153). The classifier is a function parameter whose label is 0 or 1 and whose probability is in [0, 1].
- CSV writing and reading, `os.makedirs`, `os.listdir` and `pd.to_datetime` (app3.py:86-91, 132-137, 185-190). The store is a map, and a saved log reads back as written.
- `datetime.now()` (app3.py:133, 158, 186). It is the `clock` parameter at second resolution; record timestamps lose their microseconds.
- `round(prob, 4)`, `round(mean, 2)` and the percentage format (app3.py:96-97, 162, 171). Probabilities and means are exact reals.
- `time.sleep` (app3.py:180). It only affects timing.
- A Stop press or another re-run interrupting a replay is modelled by the `Interruption` parameter of `Run`, not by a concurrent event. An interruption takes effect at a row boundary: before the first row, between two rows, or after the last row and before the final save. A re-run during a row's display counts after that row's append; a classifier error counts before it.
- Exceptions are not modelled as such: an unreadable CSV and a failing write. A classifier that raises only ends the pass, which `CutAfter` covers. The code handles none of them.
- NaN sensor values are not modelled. Readings are reals, so every comparison in the rules is exact.
- The `%Y` field assumes a four-digit year (`Timestamps.Valid`).
- Determinism and idempotence of `get_causes` need no lemma: `Causes` is a function of the reading alone.
