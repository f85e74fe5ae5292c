/**
 The energy balance: work terms at a given mass, the braking ratio, the
 regeneration-reduced EV acceleration work, the totals normalised to 100 km,
 the differential efficiency factors and the two energy reduction values.
 */
module Energy {
  import opened Errors
  import opened Params
  import opened Integrals

  const MetresPerKilometre: real := 1000.0
  const JoulesPerMegajoule: real := 1000000.0
  const MegajoulesPerKilowattHour: real := 3.6

  function Abs(x: real): (r: real)
    ensures r >= 0.0 && (r == x || r == -x)
  {
    if x < 0.0 then -x else x
  }

  // ---------------------------------------------------------------------
  // Work terms [MJ]
  // ---------------------------------------------------------------------

  /** Rolling-resistance work of mass `m` over the cycle distance. */
  function RollingWork(m: real, p: Parameters): real {
    m * p.g * p.fR * p.ds * MetresPerKilometre / JoulesPerMegajoule
  }

  /** Acceleration work of mass `m`, from the Σ a·v·dt sum `av`. */
  function AccelerationWork(m: real, av: real): real {
    m * av / JoulesPerMegajoule
  }

  /** Work spent spinning up the rotating masses. */
  function RotationalWork(m: real, p: Parameters, av: real): real {
    m * p.fRot * av / JoulesPerMegajoule
  }

  /** Aerodynamic work, from the Σ v³·dt sum `v3`; it has no mass factor. */
  function AeroWork(p: Parameters, v3: real): real {
    0.5 * p.rhoAir * p.cw * p.aFrontal * v3 / JoulesPerMegajoule
  }

  /** The mass-dependent work terms of one phase. */
  datatype Terms = Terms(rolling: real, accel: real, rot: real) {
    function Scale(k: real): Terms {
      Terms(k * rolling, k * accel, k * rot)
    }
  }

  /** The mass-dependent work terms of mass `m` for a phase with Σ a·v·dt = `av`. */
  function PhaseTerms(m: real, p: Parameters, av: real): Terms {
    Terms(RollingWork(m, p), AccelerationWork(m, av), RotationalWork(m, p, av))
  }

  /** Magnitude of the braking-phase work at mass `m`; the braking drag is always the reference one. */
  function BrakingEnergy(m: real, p: Parameters, s: Sums): (e: real)
    ensures e >= 0.0
  {
    var b := PhaseTerms(m, p, s.avBrake);
    Abs(b.rolling + b.accel + b.rot + AeroWork(p, s.v3Brake))
  }

  /** The braking ratio: braking energy over the tractive energy m·Σ a·v·dt. */
  function Phi(m: real, p: Parameters, s: Sums): real
    requires m * s.av != 0.0
  {
    BrakingEnergy(m, p, s) / (m * s.av)
  }

  /** EV acceleration work: the ICV acceleration work reduced by regenerative braking. */
  function EvAcceleration(m: real, p: Parameters, s: Sums): real
    requires m * s.av != 0.0
  {
    PhaseTerms(m, p, s.av).accel * (1.0 - Phi(m, p, s) * p.mu)
  }

  /** Traction share of rolling work plus the given acceleration work plus rotational work. */
  function Combine(p: Parameters, t: Terms, accel: real): real {
    p.rollPosFactor * t.rolling + accel + t.rot
  }

  /** The factor normalising cycle work to the reference distance. */
  function DistanceScale(p: Parameters): real
    requires p.ds != 0.0
  {
    p.dsRef / p.ds
  }

  /** ICV mechanical work of the reference mass over the reference distance; no drag term. */
  function IcvReferenceWork(p: Parameters, s: Sums): real
    requires p.ds != 0.0
  {
    var t := PhaseTerms(p.mRef, p, s.av);
    Combine(p, t, t.accel) * DistanceScale(p)
  }

  /** EV mechanical work of the reference mass over the reference distance; no drag term. */
  function EvReferenceWork(p: Parameters, s: Sums): real
    requires p.ds != 0.0 && p.mRef * s.av != 0.0
  {
    Combine(p, PhaseTerms(p.mRef, p, s.av), EvAcceleration(p.mRef, p, s)) * DistanceScale(p)
  }

  /** ICV mechanical work of the whole vehicle over the reference distance, drag included. */
  function IcvVehicleWork(p: Parameters, s: Sums): real
    requires p.ds != 0.0
  {
    var t := PhaseTerms(p.mVehicle, p, s.av);
    (Combine(p, t, t.accel) + AeroWork(p, s.v3)) * DistanceScale(p)
  }

  /** EV mechanical work of the whole vehicle over the reference distance, drag included. */
  function EvVehicleWork(p: Parameters, s: Sums): real
    requires p.ds != 0.0 && p.mVehicle * s.av != 0.0
  {
    (Combine(p, PhaseTerms(p.mVehicle, p, s.av), EvAcceleration(p.mVehicle, p, s)) + AeroWork(p, s.v3))
      * DistanceScale(p)
  }

  // ---------------------------------------------------------------------
  // Efficiency factors and ERV
  // ---------------------------------------------------------------------

  /** The four results: ERV [L or kWh per 100 km and 100 kg] and the differential efficiency factors. */
  datatype Erv = Erv(ervIcv: real, ervEv: real, muDiffIcv: real, muDiffEv: real)

  lemma DivMul(x: real, y: real)
    requires y != 0.0
    ensures x / y * y == x
  {
  }

  lemma DivMulMul(x: real, y: real, z: real)
    requires y * z != 0.0
    ensures x / (y * z) * y * z == x
  {
    DivMul(x, y * z);
    assert x / (y * z) * y * z == x / (y * z) * (y * z);
  }

  /** The four work totals [MJ], each over the reference distance. */
  datatype Works = Works(icvReference: real, evReference: real, icvVehicle: real, evVehicle: real)

  /** The four work totals of a trace whose tractive energies are non-zero. */
  function WorksOf(p: Parameters, s: Sums): Works
    requires p.ds != 0.0 && p.mRef * s.av != 0.0 && p.mVehicle * s.av != 0.0
  {
    Works(IcvReferenceWork(p, s), EvReferenceWork(p, s), IcvVehicleWork(p, s), EvVehicleWork(p, s))
  }

  /**
   The differential efficiency factors (vehicle work over certified energy)
   and the ERVs (100 kg work over the energy the efficiency factor stands
   for). A zero efficiency factor is the error.
   */
  function Ratios(w: Works, p: Parameters): (r: Result<Erv>)
    requires p.cFuel * p.lhvFuel != 0.0 && p.cEl != 0.0
    ensures r.Ok? <==> w.icvVehicle != 0.0 && w.evVehicle != 0.0
    ensures r.Ok? ==> && r.value.muDiffIcv * (p.cFuel * p.lhvFuel) == w.icvVehicle
                      && r.value.muDiffEv * (p.cEl * MegajoulesPerKilowattHour) == w.evVehicle
    ensures r.Ok? ==> && r.value.ervIcv * r.value.muDiffIcv * p.lhvFuel == w.icvReference
                      && r.value.ervEv * r.value.muDiffEv == w.evReference
    ensures w.icvVehicle == 0.0 ==> r == Err(DivisionByZero(IcvEfficiency))
    ensures w.icvVehicle != 0.0 && w.evVehicle == 0.0 ==> r == Err(DivisionByZero(EvEfficiency))
  {
    var muIcv := w.icvVehicle / (p.cFuel * p.lhvFuel);
    var muEv := w.evVehicle / (p.cEl * MegajoulesPerKilowattHour);
    DivMul(w.icvVehicle, p.cFuel * p.lhvFuel);
    DivMul(w.evVehicle, p.cEl * MegajoulesPerKilowattHour);
    if muIcv * p.lhvFuel == 0.0 then Err(DivisionByZero(IcvEfficiency))
    else if muEv == 0.0 then Err(DivisionByZero(EvEfficiency))
    else
      DivMulMul(w.icvReference, muIcv, p.lhvFuel);
      DivMul(w.evReference, muEv);
      Ok(Erv(w.icvReference / (muIcv * p.lhvFuel), w.evReference / muEv, muIcv, muEv))
  }

  /**
   The ERV calculation. Each denominator is checked in the order the
   calculation divides by it, and the first one that is zero is the error.
   */
  function Calculate(s: Sums, p: Parameters): (r: Result<Erv>)
    ensures r.Ok? <==> && p.ds != 0.0
                       && p.mRef * s.av != 0.0
                       && p.mVehicle * s.av != 0.0
                       && p.cFuel * p.lhvFuel != 0.0
                       && p.cEl != 0.0
                       && IcvVehicleWork(p, s) != 0.0
                       && EvVehicleWork(p, s) != 0.0
    ensures r.Err? ==> r.error.DivisionByZero?
    ensures p.ds == 0.0 ==> r == Err(DivisionByZero(Distance))
    ensures p.ds != 0.0 && p.mRef * s.av == 0.0 ==> r == Err(DivisionByZero(ReferenceTractiveEnergy))
    ensures (p.ds != 0.0 && p.mRef * s.av != 0.0 && p.mVehicle * s.av == 0.0)
              ==> r == Err(DivisionByZero(VehicleTractiveEnergy))
    ensures (p.ds != 0.0 && p.mRef * s.av != 0.0 && p.mVehicle * s.av != 0.0
             && p.cFuel * p.lhvFuel == 0.0)
              ==> r == Err(DivisionByZero(CertifiedFuelEnergy))
    ensures (p.ds != 0.0 && p.mRef * s.av != 0.0 && p.mVehicle * s.av != 0.0
             && p.cFuel * p.lhvFuel != 0.0 && p.cEl == 0.0)
              ==> r == Err(DivisionByZero(CertifiedElectricEnergy))
    ensures (p.ds != 0.0 && p.mRef * s.av != 0.0 && p.mVehicle * s.av != 0.0
             && p.cFuel * p.lhvFuel != 0.0 && p.cEl != 0.0 && IcvVehicleWork(p, s) == 0.0)
              ==> r == Err(DivisionByZero(IcvEfficiency))
    ensures (p.ds != 0.0 && p.mRef * s.av != 0.0 && p.mVehicle * s.av != 0.0
             && p.cFuel * p.lhvFuel != 0.0 && p.cEl != 0.0
             && IcvVehicleWork(p, s) != 0.0 && EvVehicleWork(p, s) == 0.0)
              ==> r == Err(DivisionByZero(EvEfficiency))
  {
    if p.ds == 0.0 then Err(DivisionByZero(Distance))
    else if p.mRef * s.av == 0.0 then Err(DivisionByZero(ReferenceTractiveEnergy))
    else if p.mVehicle * s.av == 0.0 then Err(DivisionByZero(VehicleTractiveEnergy))
    else if p.cFuel * p.lhvFuel == 0.0 then Err(DivisionByZero(CertifiedFuelEnergy))
    else if p.cEl * MegajoulesPerKilowattHour == 0.0 then Err(DivisionByZero(CertifiedElectricEnergy))
    else Ratios(WorksOf(p, s), p)
  }

  /**
   A successful calculation completes the first round trip: each efficiency
   factor times its certified energy gives back the vehicle work.
   */
  lemma EfficiencyRoundTrip(s: Sums, p: Parameters)
    requires Calculate(s, p).Ok?
    ensures Calculate(s, p).value.muDiffIcv * (p.cFuel * p.lhvFuel) == IcvVehicleWork(p, s)
    ensures Calculate(s, p).value.muDiffEv * (p.cEl * MegajoulesPerKilowattHour) == EvVehicleWork(p, s)
  {
    var w := WorksOf(p, s);
    assert Calculate(s, p) == Ratios(w, p);
    assert w.icvVehicle == IcvVehicleWork(p, s) && w.evVehicle == EvVehicleWork(p, s);
  }

  /**
   A successful calculation completes the second round trip: each ERV times
   the energy its efficiency factor stands for gives back the 100 kg work.
   */
  lemma ErvRoundTrip(s: Sums, p: Parameters)
    requires Calculate(s, p).Ok?
    ensures var e := Calculate(s, p).value; e.ervIcv * e.muDiffIcv * p.lhvFuel == IcvReferenceWork(p, s)
    ensures var e := Calculate(s, p).value; e.ervEv * e.muDiffEv == EvReferenceWork(p, s)
  {
    var w := WorksOf(p, s);
    assert Calculate(s, p) == Ratios(w, p);
    assert w.icvReference == IcvReferenceWork(p, s) && w.evReference == EvReferenceWork(p, s);
  }

  // ---------------------------------------------------------------------
  // Properties of the energy balance
  // ---------------------------------------------------------------------

  /** Rotational work is the rotational-mass factor times acceleration work. */
  lemma RotationalIsShareOfAcceleration(m: real, p: Parameters, av: real)
    ensures PhaseTerms(m, p, av).rot == p.fRot * PhaseTerms(m, p, av).accel
  {
  }

  /** Every mass-dependent term is linear in the mass. */
  lemma MassScaling(m1: real, m2: real, p: Parameters, av: real)
    requires m1 != 0.0
    ensures PhaseTerms(m2, p, av) == PhaseTerms(m1, p, av).Scale(m2 / m1)
  {
    var k := m2 / m1;
    assert m2 == k * m1;
    var t1 := PhaseTerms(m1, p, av);
    assert RollingWork(m2, p) == k * t1.rolling;
    assert AccelerationWork(m2, av) == k * t1.accel;
    assert RotationalWork(m2, p, av) == k * t1.rot;
  }

  /**
   Rolling work depends only on the mass, g, the rolling coefficient and the
   distance: not on the trace, and not on the phase (so braking rolling work
   equals tractive rolling work).
   */
  lemma RollingIgnoresTrace(m: real, p: Parameters, q: Parameters, av1: real, av2: real)
    requires p.g == q.g && p.fR == q.fR && p.ds == q.ds
    ensures PhaseTerms(m, p, av1).rolling == PhaseTerms(m, q, av2).rolling
  {
  }

  /** The 100 kg figures do not read the vehicle mass. */
  lemma ReferenceWorkIgnoresVehicleMass(p: Parameters, s: Sums, m: real)
    requires p.ds != 0.0
    ensures IcvReferenceWork(p.(mVehicle := m), s) == IcvReferenceWork(p, s)
    ensures p.mRef * s.av != 0.0 ==> EvReferenceWork(p.(mVehicle := m), s) == EvReferenceWork(p, s)
  {
    var q := p.(mVehicle := m);
    assert PhaseTerms(q.mRef, q, s.av) == PhaseTerms(p.mRef, p, s.av);
    assert PhaseTerms(q.mRef, q, s.avBrake) == PhaseTerms(p.mRef, p, s.avBrake);
    assert AeroWork(q, s.v3Brake) == AeroWork(p, s.v3Brake);
    assert DistanceScale(q) == DistanceScale(p);
  }

  /** Drag work (the Σ v³·dt of the tractive subset) is absent from the 100 kg figures. */
  lemma DragLeavesReferenceWork(p: Parameters, s: Sums, v3: real)
    requires p.ds != 0.0
    ensures IcvReferenceWork(p, s.(v3 := v3)) == IcvReferenceWork(p, s)
    ensures p.mRef * s.av != 0.0 ==> EvReferenceWork(p, s.(v3 := v3)) == EvReferenceWork(p, s)
  {
    if p.mRef * s.av != 0.0 {
      assert EvAcceleration(p.mRef, p, s.(v3 := v3)) == EvAcceleration(p.mRef, p, s);
    }
  }

  /** Drag work enters the ICV and the EV vehicle figures identically, scaled to the reference distance. */
  lemma DragEntersVehicleWork(p: Parameters, s: Sums, v3: real)
    requires p.ds != 0.0
    ensures IcvVehicleWork(p, s.(v3 := v3)) - IcvVehicleWork(p, s)
            == (AeroWork(p, v3) - AeroWork(p, s.v3)) * DistanceScale(p)
    ensures p.mVehicle * s.av != 0.0 ==>
              EvVehicleWork(p, s.(v3 := v3)) - EvVehicleWork(p, s)
              == (AeroWork(p, v3) - AeroWork(p, s.v3)) * DistanceScale(p)
  {
    var k := DistanceScale(p);
    var t := PhaseTerms(p.mVehicle, p, s.av);
    DifferenceScales(Combine(p, t, t.accel), AeroWork(p, v3), AeroWork(p, s.v3), k);
    if p.mVehicle * s.av != 0.0 {
      assert EvAcceleration(p.mVehicle, p, s.(v3 := v3)) == EvAcceleration(p.mVehicle, p, s);
      DifferenceScales(Combine(p, t, EvAcceleration(p.mVehicle, p, s)), AeroWork(p, v3), AeroWork(p, s.v3), k);
    }
  }

  lemma DifferenceScales(c: real, x: real, y: real, k: real)
    ensures (c + x) * k - (c + y) * k == (x - y) * k
  {
  }

  /** With the vehicle mass set to the reference mass, the vehicle figures are the 100 kg figures plus drag. */
  lemma VehicleWorkAtReferenceMass(p: Parameters, s: Sums)
    requires p.ds != 0.0 && p.mVehicle == p.mRef
    ensures IcvVehicleWork(p, s) == IcvReferenceWork(p, s) + AeroWork(p, s.v3) * DistanceScale(p)
    ensures p.mRef * s.av != 0.0 ==>
              EvVehicleWork(p, s) == EvReferenceWork(p, s) + AeroWork(p, s.v3) * DistanceScale(p)
  {
  }

  /** Over a positive tractive energy the braking ratio is non-negative. */
  lemma PhiNonNegative(m: real, p: Parameters, s: Sums)
    requires m * s.av > 0.0
    ensures Phi(m, p, s) >= 0.0
  {
  }

  /** Regenerative braking never adds acceleration work when the efficiency is non-negative. */
  lemma RegenerationReducesAcceleration(m: real, p: Parameters, s: Sums)
    requires m * s.av > 0.0 && p.mu >= 0.0
    ensures 0.0 <= PhaseTerms(m, p, s.av).accel
    ensures EvAcceleration(m, p, s) <= PhaseTerms(m, p, s.av).accel
  {
    var a := PhaseTerms(m, p, s.av).accel;
    var phi := Phi(m, p, s);
    PhiNonNegative(m, p, s);
    assert phi * p.mu >= 0.0;
    assert a >= 0.0;
    assert a * (phi * p.mu) >= 0.0;
    assert EvAcceleration(m, p, s) == a - a * (phi * p.mu);
  }

  lemma ScaleMonotone(x: real, y: real, k: real)
    requires x <= y && k >= 0.0
    ensures x * k <= y * k
  {
  }

  /** At 100 kg the EV needs at most the mechanical work of the ICV. */
  lemma EvReferenceWorkAtMostIcv(p: Parameters, s: Sums)
    requires p.ds != 0.0 && DistanceScale(p) >= 0.0 && p.mu >= 0.0
    requires p.mRef * s.av > 0.0
    ensures EvReferenceWork(p, s) <= IcvReferenceWork(p, s)
  {
    var t := PhaseTerms(p.mRef, p, s.av);
    RegenerationReducesAcceleration(p.mRef, p, s);
    ScaleMonotone(Combine(p, t, EvAcceleration(p.mRef, p, s)), Combine(p, t, t.accel), DistanceScale(p));
  }

  /** At vehicle mass the EV needs at most the mechanical work of the ICV. */
  lemma EvVehicleWorkAtMostIcv(p: Parameters, s: Sums)
    requires p.ds != 0.0 && DistanceScale(p) >= 0.0 && p.mu >= 0.0
    requires p.mVehicle * s.av > 0.0
    ensures EvVehicleWork(p, s) <= IcvVehicleWork(p, s)
  {
    var u := PhaseTerms(p.mVehicle, p, s.av);
    RegenerationReducesAcceleration(p.mVehicle, p, s);
    assert Combine(p, u, EvAcceleration(p.mVehicle, p, s)) <= Combine(p, u, u.accel);
    ScaleMonotone(Combine(p, u, EvAcceleration(p.mVehicle, p, s)) + AeroWork(p, s.v3),
                  Combine(p, u, u.accel) + AeroWork(p, s.v3), DistanceScale(p));
  }

  /** Without tractive work the braking ratio has no denominator and the calculation fails. */
  lemma NoTractionFails(p: Parameters, s: Sums)
    requires p.ds != 0.0 && s.av == 0.0
    ensures Calculate(s, p) == Err(DivisionByZero(ReferenceTractiveEnergy))
  {
  }
  /**
   The default parameters over a trace with Σ a·v·dt = 100 and Σ v³·dt = 1000
   while accelerating and -25 and 125 while braking.
   */
  lemma DefaultThreeSampleWork()
    ensures Calculate(Sums(100.0, 1000.0, -25.0, 125.0), DefaultParameters).Ok?
    ensures IcvReferenceWork(DefaultParameters, Sums(100.0, 1000.0, -25.0, 125.0))
            == (0.55 * 0.2281806 + 0.01 + 0.001) * (100.0 / 23.26)
    ensures EvReferenceWork(DefaultParameters, Sums(100.0, 1000.0, -25.0, 125.0))
            == (0.55 * 0.2281806 + 0.0099999323568475 + 0.001) * (100.0 / 23.26)
  {
  }
}
