/** The race record (`Corrida`): the measured quantities of one race.
    It is an immutable value; every KPI reads it and none changes it. */
module RaceRecord {

  /** One race. `laps` is the C++ `int voltas`; in the KPI layer it is only
      converted to a floating-point divisor, so its 32-bit width plays no role
      here. Nothing ties `laps` to `|lapTimes|`: the source never checks that
      relation. */
  datatype Race = Race(
    circuit: string,
    laps: int,
    totalTime: real,
    lapTimes: seq<real>,
    maxLateralG: real,
    maxLongitudinalG: real,
    coastingTime: real
  )
}
