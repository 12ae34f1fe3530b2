/** The race and registry that `main` builds from literal values. */
module Sample {
  import opened RaceRecord
  import opened LapTimes
  import opened Kpi
  import opened KpiSystem

  const InterlagosLaps: seq<real> := [72.1, 73.2, 71.9, 72.0, 73.5]

  /** Interlagos, 50 laps, 3600 s total, 1.8 g lateral, 1.2 g longitudinal, no coasting. */
  const Interlagos: Race := Race("Interlagos", 50, 3600.0, InterlagosLaps, 1.8, 1.2, 0.0)

  /** The five KPIs in the order `main` registers them. */
  const MainKpis: seq<KpiKind> := [AverageSpeed, MaxLateralG, MaxLongitudinalG, FastestLap, Coasting]

  /** The registry after `main`'s five `adicionarKPI` calls. */
  function MainSystem(): (s: System)
    ensures s.kpis == MainKpis
  {
    AddAllAppends(Empty(), MainKpis);
    AddAll(Empty(), MainKpis)
  }

  /** The sample's fastest lap is 71.9 s. */
  lemma InterlagosFastestLap()
    ensures Min(InterlagosLaps) == 71.9
  {
    assert IsMinimum(InterlagosLaps, 71.9) by {
      assert InterlagosLaps[2] == 71.9;
    }
    IsMinimumIsMin(InterlagosLaps, 71.9);
  }

  /** The registry `main` builds reports its five KPIs in registration order,
      numbered 1 to 5, for any race. */
  lemma MainReport(race: Race)
    ensures Report(MainSystem(), race) == [
      ReportLine(1, Evaluate(AverageSpeed, race)),
      ReportLine(2, Evaluate(MaxLateralG, race)),
      ReportLine(3, Evaluate(MaxLongitudinalG, race)),
      ReportLine(4, Evaluate(FastestLap, race)),
      ReportLine(5, Evaluate(Coasting, race))
    ]
  {
  }

  /** What `calcularKPIs` reports for the sample: 72 s per lap, 1.8 g, 1.2 g,
      a 71.9 s fastest lap and no coasting, numbered 1 to 5. */
  lemma InterlagosReport()
    ensures Report(MainSystem(), Interlagos) == [
      ReportLine(1, Ok(72.0)),
      ReportLine(2, Ok(1.8)),
      ReportLine(3, Ok(1.2)),
      ReportLine(4, Ok(71.9)),
      ReportLine(5, Ok(0.0))
    ]
  {
    MainReport(Interlagos);
    InterlagosFastestLap();
  }

  /** A race with no laps has no average, and one with no lap times has no
      fastest lap; the other KPIs still report. */
  lemma DegenerateRaceReport(race: Race)
    requires race.laps == 0 && race.lapTimes == []
    ensures Report(MainSystem(), race) == [
      ReportLine(1, Err(InvalidRaceConfiguration)),
      ReportLine(2, Ok(race.maxLateralG)),
      ReportLine(3, Ok(race.maxLongitudinalG)),
      ReportLine(4, Err(NoLapData)),
      ReportLine(5, Ok(race.coastingTime))
    ]
  {
    MainReport(race);
  }
}
