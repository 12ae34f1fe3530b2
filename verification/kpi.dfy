/** The five KPI variants behind the abstract `KPI::calcular()`, as one
    datatype of kinds and one dispatching evaluation. */
module Kpi {
  import opened RaceRecord
  import opened LapTimes

  /** The concrete KPI classes: `VelocidadeMedia`, `MaxGLateral`,
      `MaxGLongitudinal`, `TempoVoltaMaisRapida`, `CoastingTime`. None carries
      state beyond the race it reads, so a tag is enough. */
  datatype KpiKind = AverageSpeed | MaxLateralG | MaxLongitudinalG | FastestLap | Coasting

  /** Why a KPI has no value for a race. */
  datatype KpiError =
    | InvalidRaceConfiguration  // no laps to divide the total time by
    | NoLapData                 // no lap times to take the minimum of

  datatype KpiResult = Ok(value: real) | Err(error: KpiError)

  /** Total time per lap, in seconds (the source calls it average speed). */
  function AverageSpeedOf(race: Race): (r: real)
    requires race.laps != 0
    ensures r * (race.laps as real) == race.totalTime
  {
    race.totalTime / (race.laps as real)
  }

  /** The fastest lap time of the race. */
  function FastestLapOf(race: Race): (r: real)
    requires |race.lapTimes| > 0
    ensures IsMinimum(race.lapTimes, r)
  {
    Min(race.lapTimes)
  }

  /** Whether `kind` has a value for `race`: the average needs a non-zero lap
      count and the fastest lap needs at least one lap time; the other three
      read a stored field and always have one. */
  predicate Defined(kind: KpiKind, race: Race)
  {
    match kind
    case AverageSpeed => race.laps != 0
    case FastestLap => |race.lapTimes| > 0
    case _ => true
  }

  /** `calcular()` of the KPI of kind `kind` over `race`. */
  function Evaluate(kind: KpiKind, race: Race): (r: KpiResult)
    ensures r.Ok? <==> Defined(kind, race)
    ensures kind == AverageSpeed && race.laps == 0 ==> r == Err(InvalidRaceConfiguration)
    ensures kind == FastestLap && |race.lapTimes| == 0 ==> r == Err(NoLapData)
    ensures kind == AverageSpeed && r.Ok? ==> r.value * (race.laps as real) == race.totalTime
    ensures kind == FastestLap && r.Ok? ==> IsMinimum(race.lapTimes, r.value)
  {
    match kind
    case AverageSpeed =>
      if race.laps == 0 then Err(InvalidRaceConfiguration) else Ok(AverageSpeedOf(race))
    case MaxLateralG => Ok(race.maxLateralG)
    case MaxLongitudinalG => Ok(race.maxLongitudinalG)
    case FastestLap =>
      if |race.lapTimes| == 0 then Err(NoLapData) else Ok(FastestLapOf(race))
    case Coasting => Ok(race.coastingTime)
  }

  /** The average is exactly total time over lap count whenever there are laps. */
  lemma AverageSpeedIsQuotient(race: Race)
    requires race.laps != 0
    ensures Evaluate(AverageSpeed, race) == Ok(race.totalTime / (race.laps as real))
  {
  }

  /** For any non-empty lap list the fastest lap is `Min` of the lap times, and no
      other value (`LapTimes.MinElementValue` ties `Min` to `min_element`). */
  lemma FastestLapIsMinimum(race: Race, m: real)
    requires |race.lapTimes| > 0
    ensures Evaluate(FastestLap, race) == Ok(Min(race.lapTimes))
    ensures IsMinimum(race.lapTimes, m) <==> Evaluate(FastestLap, race) == Ok(m)
  {
  }

  /** Reordering the lap times (same multiset) does not change the fastest lap,
      neither its value nor whether it exists. */
  lemma FastestLapPermutationInvariant(race: Race, reordered: seq<real>)
    requires multiset(reordered) == multiset(race.lapTimes)
    ensures Evaluate(FastestLap, race.(lapTimes := reordered)) == Evaluate(FastestLap, race)
  {
    if |race.lapTimes| == 0 {
      assert |reordered| == |multiset(reordered)| == 0;
    } else {
      MinPermutationInvariant(race.lapTimes, reordered);
    }
  }

  /** The g-force and coasting KPIs return the stored field verbatim, whatever
      its sign, and never fail, even for a race with no laps or no lap times. */
  lemma PassthroughKpis(race: Race)
    ensures Evaluate(MaxLateralG, race) == Ok(race.maxLateralG)
    ensures Evaluate(MaxLongitudinalG, race) == Ok(race.maxLongitudinalG)
    ensures Evaluate(Coasting, race) == Ok(race.coastingTime)
  {
  }

  /** A KPI reads only its own fields of the race: two races agreeing on them
      give the same result, whatever else differs. */
  lemma EvaluateReadsOnlyItsFields(kind: KpiKind, a: Race, b: Race)
    requires kind == AverageSpeed ==> a.laps == b.laps && a.totalTime == b.totalTime
    requires kind == MaxLateralG ==> a.maxLateralG == b.maxLateralG
    requires kind == MaxLongitudinalG ==> a.maxLongitudinalG == b.maxLongitudinalG
    requires kind == FastestLap ==> a.lapTimes == b.lapTimes
    requires kind == Coasting ==> a.coastingTime == b.coastingTime
    ensures Evaluate(kind, a) == Evaluate(kind, b)
  {
  }
}
