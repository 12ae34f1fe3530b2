# Racing KPI evaluation, modelled in Dafny

A model of the KPI layer of a small C++ program that derives racing key
performance indicators from one race record (`Corrida`): the total time per
lap (called "average speed" in the source), peak lateral and longitudinal g,
fastest lap time and coasting time. Each KPI is a subclass of an abstract
`KPI` with one `calcular()`; the aggregator `SistemaAnaliseKPI` keeps the
KPIs in a vector, appends on `adicionarKPI`, and `calcularKPIs` evaluates
them in order, numbering them from 1.

Files and modules:

- `race.dfy` — `RaceRecord.Race`, the immutable race record.
- `lap_times.dfy` — `LapTimes`: the minimum of a sequence of lap times
  (`IsMinimum`, a recursive `Min`), and `MinElement`, the loop that
  `std::min_element` runs, returning the first smallest position or the
  end position for an empty sequence.
- `kpi.dfy` — `Kpi`: the five KPI classes as `KpiKind`, the per-class
  computations with preconditions for the zero-lap and no-lap-time cases, and the total dispatching
  `Evaluate`, which reports `InvalidRaceConfiguration` for zero laps and
  `NoLapData` for an empty lap list instead of dividing by zero or
  dereferencing `end()`.
- `registry.dfy` — `KpiSystem`: the registry as a sequence of kinds, `Add`,
  and `Report`/`CalculateKpis`, which return the lines `calcularKPIs` prints
  as `(index, result)` pairs.
- `sample.dfy` — `Sample`: the Interlagos race and the registry that `main`
  builds, with the report they produce.

## Model

| member | source | states |
|---|---|---|
| `LapTimes.Min` | cpp.cpp:116-118 | the fastest lap of a non-empty list is one of the lap times and no larger than any of them |
| `LapTimes.MinimumUnique` | cpp.cpp:116-118 | a lap list has only one minimum value, so "the fastest lap" is well defined whichever smallest lap `min_element` lands on |
| `LapTimes.IsMinimumIsMin` | cpp.cpp:116-118 | every value that is a minimum of the lap list is the value `Min` computes |
| `LapTimes.MinPermutationInvariant` | cpp.cpp:116-118 | reordering the lap times (same multiset) keeps the list non-empty and leaves the minimum unchanged |
| `LapTimes.MinElement` | cpp.cpp:117 | `min_element` returns the end position exactly when the list is empty, and otherwise the first position whose lap time is no larger than every lap time and strictly smaller than each earlier one |
| `LapTimes.MinElementValue` | cpp.cpp:117 | dereferencing `min_element` on a non-empty list yields the minimum, the same value as `Min` |
| `Kpi.AverageSpeedOf` | cpp.cpp:77-79 | with a non-zero lap count, the average times the lap count gives back the total time |
| `Kpi.FastestLapOf` | cpp.cpp:116-118 | with at least one lap time, the fastest lap is the minimum of the lap times |
| `Kpi.Evaluate` | cpp.cpp:10-14 | `calcular()` of any of the five kinds succeeds exactly when its precondition holds; zero laps makes the average fail with `InvalidRaceConfiguration`, no lap times makes the fastest lap fail with `NoLapData`; a successful average times the lap count is the total time and a successful fastest lap is the minimum |
| `Kpi.AverageSpeedIsQuotient` | cpp.cpp:77-79 | the average KPI of a race with laps is exactly total time divided by lap count |
| `Kpi.FastestLapIsMinimum` | cpp.cpp:116-118 | for a non-empty lap list the fastest-lap KPI reports a value if and only if that value is the list's minimum |
| `Kpi.FastestLapPermutationInvariant` | cpp.cpp:116-118 | replacing the lap times by any reordering leaves the fastest-lap result unchanged, including the no-lap-data failure |
| `Kpi.PassthroughKpis` | cpp.cpp:90-92 | lateral g, longitudinal g (cpp.cpp:103-105) and coasting (cpp.cpp:129-131) report the stored field verbatim and never fail, even for a race with no laps or lap times |
| `Kpi.EvaluateReadsOnlyItsFields` | cpp.cpp:12 | a KPI's result depends only on the fields of the race it reads; two races equal on those fields give equal results |
| `KpiSystem.Empty` | cpp.cpp:137 | a new registry holds no KPIs |
| `KpiSystem.Add` | cpp.cpp:140-142 | adding a KPI lengthens the registry by one, puts the KPI last and leaves every earlier entry in place, with no duplicate check |
| `KpiSystem.AddAllAppends` | cpp.cpp:140-142 | adding a list of KPIs one by one leaves the registry as the old entries followed by the list, in order |
| `KpiSystem.ReportFrom` | cpp.cpp:145-149 | the numbered lines have one entry per KPI, entry i numbered from the start index plus i and carrying that KPI's result |
| `KpiSystem.Report` | cpp.cpp:144-150 | one line per registered KPI in registration order, line i numbered i + 1 with the result of the i-th KPI; a failing KPI does not stop the later ones |
| `KpiSystem.CalculateKpis` | cpp.cpp:144-150 | the loop with a running index from 1 produces exactly the report lines |
| `KpiSystem.ReportAfterAdd` | cpp.cpp:140-150 | after adding a KPI the report is the earlier report followed by one line numbered one past the old count with the new KPI's result |
| `KpiSystem.ReportAllOk` | cpp.cpp:144-150 | when every registered KPI is defined for the race, every report line carries a value |
| `KpiSystem.ReportTwice` | cpp.cpp:144 | evaluating the same registry over the same race twice gives identical lines, one per KPI |
| `Sample.MainSystem` | cpp.cpp:172-176 | `main` registers average, lateral g, longitudinal g, fastest lap and coasting, in that order |
| `Sample.MainReport` | cpp.cpp:144-150 | for any race, the registry `main` builds reports average, lateral g, longitudinal g, fastest lap and coasting as lines 1 to 5 |
| `Sample.InterlagosFastestLap` | cpp.cpp:156 | the fastest of 72.1, 73.2, 71.9, 72.0 and 73.5 s is 71.9 s |
| `Sample.InterlagosReport` | cpp.cpp:156-176 | for the Interlagos record the registry reports 72 s per lap, 1.8 g, 1.2 g, 71.9 s and 0 s, numbered 1 to 5 |
| `Sample.DegenerateRaceReport` | cpp.cpp:172-176 | for a race with zero laps and no lap times the registry reports the two failures and still reports the three stored fields |

## Left out

- Console output: `calcularKPIs` prints `KPI <n> calculado: <value>`; the model returns the lines as values. The header lines and the direct prints in `main` (cpp.cpp:162-166, 179-184) are display only, and two of them are commented out.
- `main` never calls `calcularKPIs`; `Sample.InterlagosReport` states what that call would report for the registry `main` builds.
- `Piloto` and `Carro` (cpp.cpp:17-41): display-only holders with no computation.
- `unique_ptr` ownership and virtual destructors: memory management, not behaviour. `adicionarKPI` also accepts an empty `unique_ptr` unchecked (cpp.cpp:140-141), and `calcularKPIs` would then call through a null pointer (cpp.cpp:147); `KpiKind` has no null case, so a registry holding a null KPI is not represented. `main` never adds one.
- The race each KPI is bound to: in the source every KPI object holds a reference to its own `Corrida`, fixed when it is built (cpp.cpp:72-78), and `calcularKPIs` takes no race (cpp.cpp:144). `KpiSystem.Report` evaluates every registered KPI against one race passed to it, so the model covers only registries whose KPIs all read one shared race, which is how `main` builds its registry (cpp.cpp:172-176). A registry mixing KPIs bound to different races is not represented.
- `KpiSystem.Report`: the line number is an unbounded `nat`, while the source counts with a signed 32-bit `int kpiIndex` (cpp.cpp:145) that would overflow, undefined behaviour, after 2^31 - 1 KPIs; no real registry gets near that.
- Floating point: `double` is modelled as `real`, so there is no rounding, and no field can hold NaN or an infinity. Non-finite field values are not modelled: with a NaN lap time `min_element` (cpp.cpp:117) can return a value that is not the minimum (for `[NaN, 1.0]` it returns NaN, since `1.0 < NaN` is false), which `LapTimes.MinElement`'s contract cannot describe. `Kpi.Evaluate` reports `InvalidRaceConfiguration` where the source divides by zero and yields IEEE infinity or NaN. It reports `NoLapData` where the source dereferences `end()`, which is undefined behaviour. The per-kind `AverageSpeedOf` and `FastestLapOf` keep these two conditions as preconditions.
- The relation between `voltas` and the number of lap times is not imposed, because the source never checks it.
