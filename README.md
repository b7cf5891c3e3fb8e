# Execution statistics and runtime comparison of the serverless dashboard

This project models, in Dafny, the two computations of the dashboard's
Streamlit front end (`CC_project/frontend/app.py`) that are not presentation:

- **The function statistics** (`calculate_function_stats`): from a list of
  execution records whose keys may be missing, the total count, the success
  rate, avg/min/max of the initialisation, execution and total times (each over
  the records that carry that key only), the docker/gvisor tally and the
  warm/cold tally; together with the conversion of the backend's metric rows
  into those records on the metrics page. Module `ExecutionStats`
  (`execution_stats.dfy`).
- **The runtime comparison reading**: the percentage by which gVisor's average
  init/exec/total time differs from Docker's, guarded to 0 for a zero Docker
  average, and the sentence that calls gVisor "slower" (positive difference)
  or "faster" (anything else). Module `RuntimeComparison`
  (`runtime_comparison.dfy`).

`wrappers.dfy` holds the `Option` type used for a key that may be absent.

Modelling choices:

- A record is a datatype whose fields are `Option`s: `None` is a missing key,
  so "absent" and "present as 0" stay distinct, as `"k" in e` and
  `e.get(k, default)` tell them apart. The record keeps the keys the aggregator
  reads (`runtime`, the three timings, `cold_start`, `success`).
- Times are exact `real` milliseconds; averages and rates are exact `real`
  quotients (Python's floats and the display rounding are not modelled).
- The aggregator is a total function; the empty input returns the all-zero
  summary with zeroed distributions.
- Everything in the source here is expressions over lists (comprehensions,
  `sum`, `min`, `max`, guarded divisions), so the model is functions and
  lemmas. The one loop, which appends a record per metric row, is a map and is
  modelled as a recursive map over the rows (`NormalizeAll`).
- For a zero Docker average the code reports a delta of 0 and raises no
  separate zero-baseline flag; the model does the same.

## Model

| member | source | states |
|---|---|---|
| `ExecutionStats.CalculateFunctionStats` | CC_project/frontend/app.py:348-396 | the empty input gives the all-zero summary with zeroed distributions; `total_executions` is the record count; the success rate lies in [0, 100]; warm + cold equals the record count; docker + gvisor is at most the record count |
| `ExecutionStats.Count` | CC_project/frontend/app.py:368 | a generator count is at most the number of items; it is 0 exactly when no item matches and the item count exactly when all match |
| `ExecutionStats.Present` | CC_project/frontend/app.py:372-374 | the timing list has one entry per record carrying that key, and each value occurs in it exactly as often as records carry the key with that value; so it holds exactly those values and is empty exactly when no record carries the key |
| `ExecutionStats.Min` | CC_project/frontend/app.py:380 | `min` of a non-empty list is one of its values and at most every value |
| `ExecutionStats.Max` | CC_project/frontend/app.py:381 | `max` of a non-empty list is one of its values and at least every value |
| `ExecutionStats.MeanBetween` | CC_project/frontend/app.py:379-381 | the average of a non-empty timing list lies between its min and max |
| `ExecutionStats.Summarize` | CC_project/frontend/app.py:379-387 | an empty timing list gives 0/0/0; otherwise min <= avg <= max, min and max are values of the list and bound all of them; a one-value list gives avg = min = max = that value |
| `ExecutionStats.SuccessRate` | CC_project/frontend/app.py:369 | the rate lies in [0, 100] and, multiplied by the record count, gives 100 times the number of successes |
| `ExecutionStats.WarmColdPartition` | CC_project/frontend/app.py:392-395 | every record is tallied exactly once, as warm or as cold |
| `ExecutionStats.RuntimeBuckets` | CC_project/frontend/app.py:388-391 | docker + gvisor equals the record count minus the records whose runtime is neither "docker" nor "gvisor" |
| `ExecutionStats.SumPresent` | CC_project/frontend/app.py:372-379 | summing a timing list adds each carrying record's value once, as a record-by-record total does |
| `ExecutionStats.TimingAverage` | CC_project/frontend/app.py:372-387 | a timing's average is the total of its values over the records carrying the key divided by their number, and 0 when no record carries it |
| `ExecutionStats.SuccessRateExtremes` | CC_project/frontend/app.py:369 | a rate is 100 exactly when all records succeeded and 0 exactly when none did |
| `ExecutionStats.SuccessRateMeaning` | CC_project/frontend/app.py:368-369 | the aggregator's rate is the percentage of records whose `success` key is present and true; 100 exactly when all are, 0 exactly when none is (a missing key counts as unsuccessful) |
| `ExecutionStats.RuntimeTallyComplete` | CC_project/frontend/app.py:388-391 | docker + gvisor equals the record count exactly when every runtime is "docker" or "gvisor" |
| `ExecutionStats.MissingColdStartIsCold` | CC_project/frontend/app.py:393-394 | adding a record without `cold_start` adds one cold start and no warm start |
| `ExecutionStats.TimingBounds` | CC_project/frontend/app.py:372-387 | for a timing some record carries: min <= avg <= max, every carried value lies in [min, max], and min and max are each carried by some record |
| `ExecutionStats.AbsentTimingIsZero` | CC_project/frontend/app.py:379-387 | a timing no record carries is summarised as avg = min = max = 0 |
| `ExecutionStats.SingleCarrier` | CC_project/frontend/app.py:372-387 | when exactly one record carries a timing, with value v, avg = min = max = v |
| `ExecutionStats.MissingTimingIgnored` | CC_project/frontend/app.py:372-374 | adding a record that lacks a timing leaves that timing's avg/min/max unchanged (missing is excluded, not read as 0) |
| `ExecutionStats.PresentZeroCounts` | CC_project/frontend/app.py:372-382 | a timing present as 0 next to 10 gives avg 5, min 0, max 10, while a missing one leaves 10/10/10 |
| `ExecutionStats.TwoRecordScenario` | CC_project/frontend/app.py:348-396 | a successful warm docker run of 10 ms and a failed cold gvisor run of 50 ms give 2 executions, 50% success, 1/1 runtimes, 1/1 warm/cold, execution 30/10/50 and initialisation 0/0/0 |
| `ExecutionStats.Normalize` | CC_project/frontend/app.py:424-435 | a converted record has the row's runtime and every timing present with the row's value; it counts as successful exactly when the status is "success", and as warm exactly when the row was not a cold start, cold otherwise |
| `ExecutionStats.NormalizeAll` | CC_project/frontend/app.py:421-435 | one converted record per metric row, in row order, each converted as `Normalize` does |
| `ExecutionStats.NormalizedRuntimeCounts` | CC_project/frontend/app.py:421-425 | a converted record falls in the docker or gvisor bucket exactly when its row ran on that runtime |
| `ExecutionStats.NormalizedSuccessCount` | CC_project/frontend/app.py:421-434 | a converted record counts as successful exactly when its row's status is "success" |
| `ExecutionStats.NormalizedWarmCount` | CC_project/frontend/app.py:421-431 | a converted record is warm exactly when its row was not a cold start |
| `ExecutionStats.NormalizedTimings` | CC_project/frontend/app.py:421-430 | converted records carry every timing, so each timing list is exactly the rows' values, in row order |
| `ExecutionStats.NormalizedStats` | CC_project/frontend/app.py:421-438 | on the metrics page the rate is the share of rows with status "success", warm/cold are the rows that were / were not cold starts, and docker/gvisor are the rows that ran on each runtime |
| `ExecutionStats.NormalizedTimingBounds` | CC_project/frontend/app.py:421-438 | on the metrics page each timing's min and max bound every row's value, since every row carries every timing |
| `RuntimeComparison.PercentDelta` | CC_project/frontend/app.py:739-741 | a zero Docker average gives delta 0 (no division); otherwise applying the delta as a percentage to the Docker average gives back the gVisor average |
| `RuntimeComparison.Describe` | CC_project/frontend/app.py:822-825 | the sentence says "slower" exactly when the difference is positive, its percentage is non-negative, and with its direction it gives back the signed difference |
| `RuntimeComparison.ComparePhase` | CC_project/frontend/app.py:739-741 | a phase's delta is 0 for a zero Docker average and otherwise recovers gVisor's average; its sentence speaks for exactly that delta |
| `RuntimeComparison.Compare` | CC_project/frontend/app.py:739-879 | the report has the three phases initialisation, execution, total in that order, each compared as one phase |
| `RuntimeComparison.DeltaSign` | CC_project/frontend/app.py:739-741 | against a positive Docker average the delta is positive, zero or negative exactly when gVisor's average is larger, equal or smaller |
| `RuntimeComparison.SlowerIffLonger` | CC_project/frontend/app.py:822-825 | with a positive Docker average a phase reads "slower" exactly when gVisor's average is larger; equal averages read "0% faster" |
| `RuntimeComparison.ZeroBaselineReadsFaster` | CC_project/frontend/app.py:739-741 | a zero Docker average reads "0% faster" whatever gVisor's average |
| `RuntimeComparison.DeltaExamples` | CC_project/frontend/app.py:739-741 | Docker 100 against gVisor 150 gives +50 ("50% slower"), against 80 gives -20 ("20% faster"); Docker 0 gives 0 |
| `RuntimeComparison.CompareDirections` | CC_project/frontend/app.py:822-879 | in all three phases with a positive Docker average the sentence says "slower" exactly when gVisor's average is larger |

## Left out

- The HTTP client functions (`get_functions`, `create_function`, `update_function`, `delete_function`, `execute_function`, `get_function_metrics`, `compare_runtimes`, app.py:74-192): network I/O and error banners; the model takes their results as inputs.
- The benchmark itself (repeated paired Docker/gVisor trials and the per-iteration arrays): it runs in the backend service, which is not part of this model; the front end only reads the averages and displays the arrays (app.py:887-903).
- Streamlit pages, widgets, session state, routing, pandas/plotly charts, table filtering and styling: presentation.
- Display rounding (`:.1f`, `:.2f`) and IEEE floating point: times, averages, rates and deltas are exact reals.
- The keys the record conversion copies but the aggregator never reads (`id`, `function_name`, `language`, `error`, `timestamp`): only charts and tables use them.
- Python truthiness beyond booleans: a `cold_start` key present with value `None` (or another falsy value) is counted warm by `not e.get("cold_start", True)`, and a non-boolean truthy `success` counts as a success; with `Option<bool>` the model has only true, false and absent.
- A metric row that lacks one of the keys the conversion reads (`metric["status"]` and the others) makes the source raise `KeyError`; the model's `Metric` always has every field.
- A timing key present with value `None` (JSON null) would make `sum`/`min` raise in the source; the model has no such value.
- A negative Docker average (impossible for measured times) flips the delta's sign relation; `DeltaSign` and `SlowerIffLonger` are stated for a positive average only.
