/**
 The left-endpoint work integrals: per-sample products summed over a phase
 subset, with each sample weighted by its own time step.
 */
module Integrals {
  import opened Trace

  /** The two integrands: a·v·dt (acceleration power) and v³·dt (drag power). */
  datatype Kernel = AccelPower | DragPower

  function Integrand(k: Kernel, s: Step): real {
    match k
    case AccelPower => s.a * s.v * s.dt
    case DragPower => s.v * s.v * s.v * s.dt
  }

  /** Σ over the samples of the integrand; 0 over no samples. */
  function Integral(k: Kernel, steps: seq<Step>): (r: real)
    ensures steps == [] ==> r == 0.0
  {
    if steps == [] then 0.0 else Integrand(k, steps[0]) + Integral(k, steps[1..])
  }

  /** The four sums the ERV calculation needs. */
  datatype Sums = Sums(av: real, v3: real, avBrake: real, v3Brake: real)

  /** The sums over a tractive and a braking subset. */
  function SumsOf(tractive: seq<Step>, braking: seq<Step>): Sums {
    Sums(Integral(AccelPower, tractive), Integral(DragPower, tractive),
         Integral(AccelPower, braking), Integral(DragPower, braking))
  }

  /** The integral is additive over concatenated pieces of a trace. */
  lemma {:induction false} IntegralAppend(k: Kernel, xs: seq<Step>, ys: seq<Step>)
    ensures Integral(k, xs + ys) == Integral(k, xs) + Integral(k, ys)
  {
    if xs == [] {
      assert xs + ys == ys;
    } else {
      assert (xs + ys)[1..] == xs[1..] + ys;
      IntegralAppend(k, xs[1..], ys);
    }
  }

  /** With every integrand positive, the sum is positive exactly when there is a sample. */
  lemma {:induction false} PositiveTermsPositiveIntegral(k: Kernel, xs: seq<Step>)
    requires forall i :: 0 <= i < |xs| ==> Integrand(k, xs[i]) > 0.0
    ensures Integral(k, xs) > 0.0 <==> xs != []
  {
    if xs != [] {
      PositiveTermsPositiveIntegral(k, xs[1..]);
    }
  }

  /** With every integrand non-positive (non-negative), so is the sum. */
  lemma {:induction false} SignedTermsSignedIntegral(k: Kernel, xs: seq<Step>)
    ensures (forall i :: 0 <= i < |xs| ==> Integrand(k, xs[i]) <= 0.0) ==> Integral(k, xs) <= 0.0
    ensures (forall i :: 0 <= i < |xs| ==> Integrand(k, xs[i]) >= 0.0) ==> Integral(k, xs) >= 0.0
  {
    if xs != [] {
      SignedTermsSignedIntegral(k, xs[1..]);
    }
  }

  lemma TractiveIntegrandPositive(s: Step)
    requires InPhase(Tractive, s) && s.dt > 0.0
    ensures Integrand(AccelPower, s) > 0.0
  {
    assert s.a * s.v > 0.0;
  }

  lemma BrakingIntegrandSigns(s: Step)
    requires InPhase(Braking, s) && s.dt >= 0.0
    ensures Integrand(AccelPower, s) <= 0.0 && Integrand(DragPower, s) >= 0.0
  {
    assert s.a * s.v < 0.0;
    assert s.v * s.v * s.v > 0.0;
  }

  lemma TractiveDragNonNegative(s: Step)
    requires InPhase(Tractive, s) && s.dt >= 0.0
    ensures Integrand(DragPower, s) >= 0.0
  {
    assert s.v * s.v * s.v > 0.0;
  }

  /**
   When every time step is positive, the tractive a·v·dt sum is positive
   exactly when the tractive subset is non-empty; it is then a valid
   denominator for the braking ratio.
   */
  lemma TractiveWorkPositive(steps: seq<Step>)
    requires forall i :: 0 <= i < |steps| ==> steps[i].dt > 0.0
    ensures Integral(AccelPower, Select(Tractive, steps)) > 0.0 <==> Select(Tractive, steps) != []
  {
    var sub := Select(Tractive, steps);
    forall i | 0 <= i < |sub|
      ensures Integrand(AccelPower, sub[i]) > 0.0
    {
      SelectMembership(Tractive, steps, sub[i]);
      TractiveIntegrandPositive(sub[i]);
    }
    PositiveTermsPositiveIntegral(AccelPower, sub);
  }

  /**
   With non-negative time steps the braking a·v·dt sum is at most 0 and both
   v³·dt sums are at least 0.
   */
  lemma IntegralSigns(steps: seq<Step>)
    requires forall i :: 0 <= i < |steps| ==> steps[i].dt >= 0.0
    ensures Integral(AccelPower, Select(Braking, steps)) <= 0.0
    ensures Integral(DragPower, Select(Tractive, steps)) >= 0.0
    ensures Integral(DragPower, Select(Braking, steps)) >= 0.0
  {
    var tr := Select(Tractive, steps);
    var br := Select(Braking, steps);
    forall i | 0 <= i < |br|
      ensures Integrand(AccelPower, br[i]) <= 0.0 && Integrand(DragPower, br[i]) >= 0.0
    {
      SelectMembership(Braking, steps, br[i]);
      BrakingIntegrandSigns(br[i]);
    }
    forall i | 0 <= i < |tr|
      ensures Integrand(DragPower, tr[i]) >= 0.0
    {
      SelectMembership(Tractive, steps, tr[i]);
      TractiveDragNonNegative(tr[i]);
    }
    SignedTermsSignedIntegral(AccelPower, br);
    SignedTermsSignedIntegral(DragPower, br);
    SignedTermsSignedIntegral(DragPower, tr);
  }
}
