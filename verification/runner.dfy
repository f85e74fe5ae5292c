/**
 The case runner: merge the default and custom parameters, load the trace,
 run the ERV calculation and report the six figures.
 */
module Runner {
  import opened Errors
  import opened Trace
  import opened Integrals
  import opened Params
  import opened Energy

  /**
   The dictionary-level calculation: unpack the parameters (a missing key is
   an error), then the energy balance over the sums of the two subsets.
   */
  function CalculateErv(tractive: seq<Step>, braking: seq<Step>, p: ParamMap): (r: Result<Erv>)
    ensures (exists k :: k !in p) ==> r.Err? && r.error.MissingParameter?
    ensures (exists k :: k !in p) ==> r == Err(FromMap(p).error)
    ensures (forall k :: k in p) ==> r == Calculate(SumsOf(tractive, braking), FromMap(p).value)
  {
    var x :- FromMap(p);
    Calculate(SumsOf(tractive, braking), x)
  }

  /** The six figures of a case: the two 100 kg work totals, the efficiency factors and the ERVs. */
  datatype Report = Report(icvWork: real, evWork: real, muDiffIcv: real, muDiffEv: real,
                           ervIcv: real, ervEv: real)

  /** The report of an ERV result; the work totals are recovered as ERV × µdiff (× LHV for fuel). */
  function ReportOf(erv: Erv, lhv: real): Report {
    Report(erv.ervIcv * erv.muDiffIcv * lhv, erv.ervEv * erv.muDiffEv,
           erv.muDiffIcv, erv.muDiffEv, erv.ervIcv, erv.ervEv)
  }

  /** The four sums of a table that passes the schema check. */
  function TraceSums(t: Table): Sums
    requires t.Rectangular() && RequiredColumns <= t.columns
  {
    var l := Load(t).value;
    SumsOf(l.tractive, l.braking)
  }

  /**
   Runs a case. The two work totals are recovered from the ERVs, the
   efficiency factors and the fuel heating value, as the report prints them.
   */
  function RunCase(t: Table, custom: ParamMap): (r: Result<Report>)
    requires t.Rectangular()
    ensures !(RequiredColumns <= t.columns) ==> r == Err(MissingColumns(RequiredColumns))
    ensures RequiredColumns <= t.columns ==>
              && (r.Ok? <==> Calculate(TraceSums(t), CaseParameters(custom)).Ok?)
              && (r.Err? ==> r.error == Calculate(TraceSums(t), CaseParameters(custom)).error)
    ensures r.Ok? ==> ReportsReferenceWork(r.value, CaseParameters(custom), TraceSums(t))
    ensures r.Ok? ==> var e := Calculate(TraceSums(t), CaseParameters(custom)).value;
                      && r.value.muDiffIcv == e.muDiffIcv && r.value.muDiffEv == e.muDiffEv
                      && r.value.ervIcv == e.ervIcv && r.value.ervEv == e.ervEv
  {
    var p := CaseParams(custom);
    var loaded :- Load(t);
    CaseErv(t, custom);
    match CalculateErv(loaded.tractive, loaded.braking, p)
    case Err(e) => Err(e)
    case Ok(erv) =>
      ReportRoundTrip(TraceSums(t), CaseParameters(custom), erv, p[LhvFuel]);
      Ok(ReportOf(erv, p[LhvFuel]))
  }

  /** The reported work totals, recovered from the ERVs, are the 100 kg, 100 km mechanical work. */
  lemma ReportRoundTrip(s: Sums, x: Parameters, erv: Erv, lhv: real)
    requires Calculate(s, x) == Ok(erv) && lhv == x.lhvFuel
    ensures ReportsReferenceWork(ReportOf(erv, lhv), x, s)
  {
    ErvRoundTrip(s, x);
  }

  /** The report's two work totals are the ICV and EV mechanical work at 100 kg over 100 km. */
  ghost predicate ReportsReferenceWork(report: Report, x: Parameters, s: Sums) {
    && x.ds != 0.0 && x.mRef * s.av != 0.0
    && report.icvWork == IcvReferenceWork(x, s)
    && report.evWork == EvReferenceWork(x, s)
  }

  /** The dictionary-level calculation of a case is the energy balance of its unpacked parameters. */
  lemma CaseErv(t: Table, custom: ParamMap)
    requires t.Rectangular() && RequiredColumns <= t.columns
    ensures CaseParams(custom)[LhvFuel] == CaseParameters(custom).lhvFuel
    ensures CalculateErv(Load(t).value.tractive, Load(t).value.braking, CaseParams(custom))
            == Calculate(TraceSums(t), CaseParameters(custom))
  {
  }

  /**
   Overriding the vehicle mass leaves the reported 100 kg, 100 km work totals
   unchanged: only the vehicle-scale figures read it.
   */
  lemma MassOverrideKeepsReferenceWork(t: Table, custom: ParamMap, m: real)
    requires t.Rectangular()
    requires RunCase(t, custom).Ok? && RunCase(t, custom[MVehicle := m]).Ok?
    ensures RunCase(t, custom[MVehicle := m]).value.icvWork == RunCase(t, custom).value.icvWork
    ensures RunCase(t, custom[MVehicle := m]).value.evWork == RunCase(t, custom).value.evWork
  {
    VehicleMassOverride(custom, m);
    ReferenceWorkIgnoresVehicleMass(CaseParameters(custom), TraceSums(t), m);
  }

  /** A trace without a tractive sample fails with a zero braking-ratio denominator. */
  lemma NoTractiveSampleFails(t: Table, custom: ParamMap)
    requires t.Rectangular() && RequiredColumns <= t.columns
    requires forall i :: 0 <= i < |t.rows| ==>
               t.rows[i][AccelerationColumn] <= 0.0 || t.rows[i][SpeedColumn] <= 0.0
    requires Ds !in custom || custom[Ds] != 0.0
    ensures RunCase(t, custom) == Err(DivisionByZero(ReferenceTractiveEnergy))
  {
    NoTractiveSampleNoWork(t);
    CaseDistance(custom);
    NoTractionFails(CaseParameters(custom), TraceSums(t));
  }

  lemma NoTractiveSampleNoWork(t: Table)
    requires t.Rectangular() && RequiredColumns <= t.columns
    requires forall i :: 0 <= i < |t.rows| ==>
               t.rows[i][AccelerationColumn] <= 0.0 || t.rows[i][SpeedColumn] <= 0.0
    ensures TraceSums(t).av == 0.0
  {
    var l := Load(t).value;
    var sub := Select(Tractive, l.trace);
    if sub != [] {
      SelectMembership(Tractive, l.trace, sub[0]);
      assert false;
    }
  }

  /** One row of a trace table. */
  function Row(time: real, v: real, a: real): map<string, real> {
    map[TimeColumn := time, SpeedColumn := v, AccelerationColumn := a]
  }

  /** Standing still, then accelerating at 10 m/s, then braking at 5 m/s. */
  const ThreeSamples: Table :=
    Table(RequiredColumns, [Row(0.0, 0.0, 0.0), Row(1.0, 10.0, 10.0), Row(2.0, 5.0, -5.0)])

  /** The three-sample table loads into a trace of unit time steps with one tractive and one braking sample. */
  lemma ThreeSampleLoad()
    ensures ThreeSamples.Rectangular()
    ensures Load(ThreeSamples)
            == Ok(Loaded([Step(0.0, 0.0, 1.0), Step(10.0, 10.0, 1.0), Step(5.0, -5.0, 1.0)],
                         [Step(10.0, 10.0, 1.0)], [Step(5.0, -5.0, 1.0)]))
  {
    var t := ThreeSamples;
    assert Times(t) == [0.0, 1.0, 2.0];
    assert TimeSteps([0.0, 1.0, 2.0]) == [1.0, 1.0, 1.0];
    var trace := [Step(0.0, 0.0, 1.0), Step(10.0, 10.0, 1.0), Step(5.0, -5.0, 1.0)];
    assert Load(t).value.trace == trace;
    assert Select(Tractive, trace) == [Step(10.0, 10.0, 1.0)];
    assert Select(Braking, trace) == [Step(5.0, -5.0, 1.0)];
  }

  /** The four sums of the three-sample table. */
  lemma ThreeSampleSums()
    ensures ThreeSamples.Rectangular() && RequiredColumns <= ThreeSamples.columns
    ensures TraceSums(ThreeSamples) == Sums(100.0, 1000.0, -25.0, 125.0)
  {
    ThreeSampleLoad();
    var tr := [Step(10.0, 10.0, 1.0)];
    var br := [Step(5.0, -5.0, 1.0)];
    assert Integral(AccelPower, tr) == 100.0;
    assert Integral(DragPower, tr) == 1000.0;
    assert Integral(AccelPower, br) == -25.0;
    assert Integral(DragPower, br) == 125.0;
  }

  /** The three-sample scenario with the default parameters, worked through. */
  lemma ThreeSampleScenario()
    ensures RunCase(ThreeSamples, map[]).Ok?
    ensures RunCase(ThreeSamples, map[]).value.icvWork == (0.55 * 0.2281806 + 0.01 + 0.001) * (100.0 / 23.26)
    ensures RunCase(ThreeSamples, map[]).value.evWork
            == (0.55 * 0.2281806 + 0.0099999323568475 + 0.001) * (100.0 / 23.26)
  {
    ThreeSampleSums();
    NoOverrideIsDefault();
    DefaultThreeSampleWork();
  }
}
