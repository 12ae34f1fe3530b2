/** `SistemaAnaliseKPI`: an ordered collection of KPIs, evaluated in the order
    they were added and numbered from 1. */
module KpiSystem {
  import opened RaceRecord
  import opened Kpi

  /** The registry; `kpis` is in registration order, duplicates allowed. */
  datatype System = System(kpis: seq<KpiKind>)

  /** One line of the report: the 1-based position of the KPI and its result. */
  datatype ReportLine = ReportLine(index: nat, result: KpiResult)

  /** A freshly declared registry holds no KPIs. */
  function Empty(): (s: System)
    ensures |s.kpis| == 0
  {
    System([])
  }

  /** `adicionarKPI`: the KPI goes at the end; nothing already registered moves
      or disappears, and an equal KPI already present does not prevent it. */
  function Add(sys: System, kind: KpiKind): (r: System)
    ensures |r.kpis| == |sys.kpis| + 1
    ensures r.kpis[|sys.kpis|] == kind
    ensures forall i :: 0 <= i < |sys.kpis| ==> r.kpis[i] == sys.kpis[i]
  {
    System(sys.kpis + [kind])
  }

  /** Helper: registering `kinds` one after the other, as `main`'s chain of
      `adicionarKPI` calls does; `AddAllAppends` states what it yields. */
  function AddAll(sys: System, kinds: seq<KpiKind>): System
    decreases |kinds|
  {
    if |kinds| == 0 then sys else AddAll(Add(sys, kinds[0]), kinds[1..])
  }

  /** Registering a list of KPIs into a registry leaves them after the earlier
      ones, in the order given. */
  lemma {:induction false} AddAllAppends(sys: System, kinds: seq<KpiKind>)
    ensures AddAll(sys, kinds).kpis == sys.kpis + kinds
    decreases |kinds|
  {
    if |kinds| > 0 {
      AddAllAppends(Add(sys, kinds[0]), kinds[1..]);
      assert sys.kpis + [kinds[0]] + kinds[1..] == sys.kpis + kinds;
    }
  }

  /** The report lines of `kinds`, numbered from `first` on. */
  function ReportFrom(kinds: seq<KpiKind>, race: Race, first: nat): (lines: seq<ReportLine>)
    ensures |lines| == |kinds|
    ensures forall i :: 0 <= i < |kinds| ==> lines[i] == ReportLine(first + i, Evaluate(kinds[i], race))
    decreases |kinds|
  {
    if |kinds| == 0 then []
    else [ReportLine(first, Evaluate(kinds[0], race))] + ReportFrom(kinds[1..], race, first + 1)
  }

  /** `calcularKPIs`, with the printed lines returned instead: one line per
      registered KPI, in registration order, the i-th numbered i + 1. A KPI
      without a value reports its error and does not stop the ones after it. */
  function Report(sys: System, race: Race): (lines: seq<ReportLine>)
    ensures |lines| == |sys.kpis|
    ensures forall i :: 0 <= i < |sys.kpis| ==>
              lines[i].index == i + 1 && lines[i].result == Evaluate(sys.kpis[i], race)
  {
    ReportFrom(sys.kpis, race, 1)
  }

  /** The loop of `calcularKPIs` itself: a running `kpiIndex` from 1 and one
      evaluation per KPI, collected in place of the console output. */
  method CalculateKpis(sys: System, race: Race) returns (lines: seq<ReportLine>)
    ensures lines == Report(sys, race)
  {
    lines := [];
    var kpiIndex: nat := 1;
    var n := 0;
    while n < |sys.kpis|
      invariant 0 <= n <= |sys.kpis|
      invariant kpiIndex == n + 1
      invariant |lines| == n
      invariant forall i :: 0 <= i < n ==> lines[i] == ReportLine(i + 1, Evaluate(sys.kpis[i], race))
    {
      lines := lines + [ReportLine(kpiIndex, Evaluate(sys.kpis[n], race))];
      kpiIndex := kpiIndex + 1;
      n := n + 1;
    }
  }

  /** Adding a KPI adds exactly one line at the end of the report and leaves
      the earlier lines as they were. */
  lemma ReportAfterAdd(sys: System, kind: KpiKind, race: Race)
    ensures Report(Add(sys, kind), race)
            == Report(sys, race) + [ReportLine(|sys.kpis| + 1, Evaluate(kind, race))]
  {
  }

  /** When every registered KPI is defined for the race, every line carries a value. */
  lemma ReportAllOk(sys: System, race: Race)
    requires forall i :: 0 <= i < |sys.kpis| ==> Defined(sys.kpis[i], race)
    ensures forall i :: 0 <= i < |sys.kpis| ==> Report(sys, race)[i].result.Ok?
  {
  }

  /** Reporting twice over the same registry and race gives the same lines.
      This holds by construction, because the registry and the race are
      immutable values; it adds nothing beyond `CalculateKpis`'s postcondition
      and is stated as the idempotence the `const` method promises. */
  method ReportTwice(sys: System, race: Race) returns (first: seq<ReportLine>, second: seq<ReportLine>)
    ensures first == second
    ensures |first| == |sys.kpis|
  {
    first := CalculateKpis(sys, race);
    second := CalculateKpis(sys, race);
  }
}
