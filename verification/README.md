# LightImpact energy reduction value — a Dafny model

LightImpact computes the Energy Reduction Value (ERV): how much fuel (for an
internal combustion vehicle, ICV) or electricity (for an electric vehicle, EV)
100 kg less vehicle mass saves over 100 km. It works from a WLTP
driving-cycle trace (time, speed, acceleration). This project models the
three parts of `lightimpact/core.py` that do the computing:

- `load_wltp` is modelled by module `Trace`. It checks the schema and derives
  the time steps (`diff().fillna(1)`). It then splits off the tractive samples
  (a > 0, v > 0) and the braking samples (a < 0, v > 0).
- `calculate_erv` is modelled by modules `Integrals`, `Params` and `Energy`.
  `Integrals` holds the left-endpoint sums Σ a·v·dt and Σ v³·dt. `Params`
  unpacks the parameter dictionary. `Energy` holds:
  - the rolling, acceleration, rotational and aerodynamic work terms;
  - the braking ratio φ and the regeneration-reduced EV acceleration work;
  - the 100 kg and vehicle-mass totals normalised to 100 km;
  - the differential efficiency factors µdiff and the two ERVs.
- The parameter merge of `run_lightimpact_case` is modelled by `Params`: the
  three default buckets, then the custom overrides key by key. Module
  `Runner` models the two work totals that case reports, recovered as
  ERV × µdiff (× LHV for fuel).

Modelling choices:
- Quantities are Dafny `real`s, exact rationals.
- An already-parsed table is a header set plus one `map<string, real>` per row.
- A parameter dictionary is a `map<Key, real>`. `Key` enumerates the fifteen
  parameter names, and `Params.Name` gives each one's dictionary string.
- Every failure is a value of `Errors.Result`:
  - a missing CSV column;
  - a missing parameter key, reported as the first missing key in the order
    `calculate_erv` reads them;
  - a zero denominator, named by the expression it divides by.

The seven denominators are `ds`, `m_ref·Σa·v·dt`, `m_vehicle·Σa·v·dt`,
`c_fuel_WLTP·LHV_fuel`, `c_el_WLTP·3.6`, `µdiff_ICV·LHV_fuel` and `µdiff_EV`.
The calculation checks them in the order it divides by them. Where Python gives
infinity or NaN (numpy float division) instead of raising, the model returns
that error instead. See "Left out".

## Model

| member | source | states |
|---|---|---|
| Trace.Load | lightimpact/core.py:47-57 | fails with the required-column set exactly when one of "Speed (m/s)", "Acceleration (m/s2)", "Time (s)" is missing; otherwise one sample per row carrying that row's speed and acceleration, a first time step of 1 s and later steps equal to the time difference to the previous row, and the tractive and braking subsets of exactly those samples |
| Trace.TimeSteps | lightimpact/core.py:53 | one step per time value: the first is 1, every later one is the difference to the previous time |
| Trace.DiffFrom | lightimpact/core.py:53 | differencing a time column against a starting time keeps its length and gives each time minus its predecessor |
| Trace.Accumulate | lightimpact/core.py:53 | the cumulative sum used as the inverse of differencing keeps the length |
| Trace.AccumulateInvertsDiff | lightimpact/core.py:53 | summing the differences back up from the starting time restores every time value |
| Trace.DiffInvertsAccumulate | lightimpact/core.py:53 | differencing the running times gives back the steps: differencing and cumulative summation are mutual inverses |
| Trace.TimeStepsRoundTrip | lightimpact/core.py:53 | the time steps lose only the first time: the first time plus the cumulative sum of the later steps restores the whole time column |
| Trace.InPhase | lightimpact/core.py:55-56 | no contract of its own: the tractive mask (a > 0 and v > 0) and the braking mask (a < 0 and v > 0); `Trace.Select`, `Trace.SelectMembership` and `Trace.IdleSampleInNeither` state what the masks select |
| Trace.Select | lightimpact/core.py:55-56 | the row mask keeps samples in trace order (a subsequence), keeps only samples of the phase, and keeps every sample of the phase |
| Trace.SelectMembership | lightimpact/core.py:55-56 | a sample is in a phase subset if and only if it is in the trace and satisfies that phase's mask |
| Trace.SelectAppend | lightimpact/core.py:55-56 | the mask acts row by row: masking a concatenated trace is the concatenation of the masked pieces |
| Trace.IdleSampleInNeither | lightimpact/core.py:55-56 | a sample with zero acceleration or with non-positive speed is in neither subset |
| Trace.PhasesDisjoint | lightimpact/core.py:55-56 | the tractive and braking subsets together use each trace sample at most once, and no sample is in both |
| Trace.Times | lightimpact/core.py:53 | the time column has one entry per row, holding that row's time cell |
| Integrals.Integral | lightimpact/core.py:81 | the sum over no samples is 0 |
| Integrals.Integrand | lightimpact/core.py:81-95 | no contract of its own: the per-sample term a·v·dt (lines 81, 92) or v³·dt (lines 85, 95); `Integrals.TractiveWorkPositive` and `Integrals.IntegralSigns` state its signs over each subset |
| Integrals.SumsOf | lightimpact/core.py:81-95 | no contract of its own: the four sums Σ a·v·dt and Σ v³·dt over the tractive and the braking subset; `Runner.ThreeSampleSums` evaluates it on a concrete table |
| Integrals.IntegralAppend | lightimpact/core.py:81 | the sum is additive over concatenated pieces of a subset |
| Integrals.PositiveTermsPositiveIntegral | lightimpact/core.py:81 | when every term is positive, the sum is positive if and only if there is a sample |
| Integrals.SignedTermsSignedIntegral | lightimpact/core.py:92 | terms that are all non-positive (non-negative) give a non-positive (non-negative) sum |
| Integrals.TractiveWorkPositive | lightimpact/core.py:99 | with positive time steps, the tractive Σ a·v·dt, the braking-ratio denominator, is positive if and only if the tractive subset is non-empty |
| Integrals.IntegralSigns | lightimpact/core.py:92-95 | with non-negative time steps, the braking Σ a·v·dt is at most 0 and both Σ v³·dt sums are at least 0 |
| Params.Override | lightimpact/core.py:133-135 | a dictionary update has the keys of both dictionaries; the update's value wins on a shared key and the base's value is kept elsewhere |
| Params.DefaultValue | lightimpact/core.py:14-38 | no contract of its own: the default of each of the fifteen parameters; `Params.Defaults`, `Params.DefaultParametersValues` and `Params.CaseDistance` state where these values end up |
| Params.Defaults | lightimpact/core.py:14-38 | the default dictionary holds every parameter with its default value |
| Params.BucketsMergeToDefaults | lightimpact/core.py:133 | merging the fixed, vehicle and WLTP buckets in that order gives exactly the default dictionary |
| Params.CaseParams | lightimpact/core.py:133-135 | the case dictionary has every parameter; it holds the custom value where one is given and the default otherwise |
| Params.FirstMissing | lightimpact/core.py:63-77 | the index of the first key that is missing, with every earlier key present |
| Params.FromMap | lightimpact/core.py:63-77 | unpacking succeeds if and only if every parameter key is present, and each unpacked field is the dictionary's value; otherwise it fails naming the first key missing in reading order |
| Params.FromMapToMap | lightimpact/core.py:63-77 | unpacking the dictionary of a parameter record gives the record back |
| Params.CaseParameters | lightimpact/core.py:133-135 | the unpacked case parameters hold the case dictionary's value for every key |
| Params.VehicleMassOverride | lightimpact/core.py:134-135 | overriding `m_vehicle` changes that one unpacked field and no other |
| Params.CaseDistance | lightimpact/core.py:34 | the case distance is the custom `ds` when one is given, and 23.26 km otherwise |
| Params.DefaultParametersValues | lightimpact/core.py:14-38 | the default record holds each parameter's default value |
| Params.NoOverrideIsDefault | lightimpact/core.py:133-135 | without overrides a case runs on exactly the default record |
| Energy.RollingWork | lightimpact/core.py:80 | no contract of its own: m·g·f_r·ds·1000/1e6 MJ for a mass m, the formula of lines 80, 91, 105 and 111; `Energy.RollingIgnoresTrace` and `Energy.MassScaling` state its properties |
| Energy.AccelerationWork | lightimpact/core.py:82 | no contract of its own: m·Σa·v·dt/1e6 MJ, the formula of lines 82, 93, 106 and 112; `Energy.MassScaling` states that it is linear in the mass |
| Energy.RotationalWork | lightimpact/core.py:83 | no contract of its own: m·f_Rot·Σa·v·dt/1e6 MJ, the formula of lines 83, 94, 107 and 113; `Energy.RotationalIsShareOfAcceleration` states that it is f_Rot times the acceleration work |
| Energy.AeroWork | lightimpact/core.py:86 | no contract of its own: 0.5·ρ·cw·A·Σv³·dt/1e6 MJ with no mass factor, the formula of lines 86 and 96; `Energy.DragLeavesReferenceWork` and `Energy.DragEntersVehicleWork` state where it enters |
| Energy.PhaseTerms | lightimpact/core.py:80-83 | no contract of its own: the rolling, acceleration and rotational work of one mass and one Σa·v·dt; `Energy.MassScaling` states how it scales with the mass |
| Energy.Phi | lightimpact/core.py:99 | no contract beyond the non-zero denominator it requires: the braking ratio E_b/(m·Σa·v·dt) of lines 99 and 116; `Energy.PhiNonNegative` states its sign |
| Energy.EvAcceleration | lightimpact/core.py:100 | no contract beyond φ's denominator: W_A·(1 − φ·µ), lines 100 and 117; `Energy.RegenerationReducesAcceleration` states that it is at most W_A |
| Energy.Combine | lightimpact/core.py:88 | no contract of its own: roll_pos_factor·W_R + acceleration work + W_Rot, the bracket of lines 88, 102, 109 and 119 |
| Energy.DistanceScale | lightimpact/core.py:88 | no contract beyond the non-zero `ds` it requires: the factor ds_ref/ds of lines 88, 102, 109 and 119 |
| Energy.IcvReferenceWork | lightimpact/core.py:88 | no contract beyond a non-zero `ds`: the ICV 100 kg, 100 km work; `Energy.ErvRoundTrip`, `Energy.ReferenceWorkIgnoresVehicleMass` and `Energy.DragLeavesReferenceWork` state its properties |
| Energy.EvReferenceWork | lightimpact/core.py:102 | no contract beyond non-zero denominators: the EV 100 kg, 100 km work; `Energy.EvReferenceWorkAtMostIcv` bounds it by the ICV work |
| Energy.IcvVehicleWork | lightimpact/core.py:109 | no contract beyond a non-zero `ds`: the ICV vehicle-mass work with drag; `Energy.EfficiencyRoundTrip` and `Energy.DragEntersVehicleWork` state its properties |
| Energy.EvVehicleWork | lightimpact/core.py:119 | no contract beyond non-zero denominators: the EV vehicle-mass work with drag; `Energy.EvVehicleWorkAtMostIcv` bounds it by the ICV work |
| Energy.WorksOf | lightimpact/core.py:88-119 | no contract beyond non-zero denominators: the four work totals together, the input of `Energy.Ratios` |
| Energy.BrakingEnergy | lightimpact/core.py:98 | the braking energy is an absolute value, never negative |
| Energy.Ratios | lightimpact/core.py:122-127 | the µdiff factors and ERVs exist if and only if both vehicle works are non-zero. Then each µdiff times its certified energy gives back its vehicle work, and each ERV times the energy its µdiff stands for gives back its 100 kg work. A zero ICV (then EV) vehicle work is the ICV (EV) efficiency error |
| Energy.Calculate | lightimpact/core.py:88-127 | the calculation succeeds if and only if all seven denominators are non-zero (the two µdiff denominators stated as non-zero vehicle work); a failure is always a zero-denominator error, and it names the first zero denominator in the order ds, m_ref·Σa·v·dt, m_vehicle·Σa·v·dt, c_fuel·LHV, c_el·3.6, µdiff_ICV·LHV, µdiff_EV |
| Energy.EfficiencyRoundTrip | lightimpact/core.py:122-123 | on success, each µdiff times its certified energy per 100 km (c_fuel·LHV or c_el·3.6) gives back the vehicle's mechanical work |
| Energy.ErvRoundTrip | lightimpact/core.py:126-127 | on success, ERV_ICV·µdiff_ICV·LHV and ERV_EV·µdiff_EV give back the 100 kg, 100 km mechanical work of ICV and EV |
| Energy.RotationalIsShareOfAcceleration | lightimpact/core.py:82-83 | rotational work is the rotational mass factor times acceleration work |
| Energy.MassScaling | lightimpact/core.py:105-107 | rolling, acceleration and rotational work at one mass are those at another scaled by the mass ratio |
| Energy.RollingIgnoresTrace | lightimpact/core.py:91 | rolling work depends on mass, g, f_r and ds only: braking-phase rolling work equals tractive rolling work and no trace sum enters it |
| Energy.ReferenceWorkIgnoresVehicleMass | lightimpact/core.py:88-102 | the 100 kg ICV and EV works do not depend on `m_vehicle` |
| Energy.DragLeavesReferenceWork | lightimpact/core.py:88-102 | the tractive Σ v³·dt does not enter the 100 kg ICV or EV work |
| Energy.DragEntersVehicleWork | lightimpact/core.py:109-119 | changing the tractive Σ v³·dt changes ICV and EV vehicle work by the same amount: the change in aerodynamic work scaled to 100 km |
| Energy.VehicleWorkAtReferenceMass | lightimpact/core.py:109-119 | with the vehicle mass equal to the reference mass, each vehicle work is the 100 kg work plus the scaled aerodynamic work |
| Energy.PhiNonNegative | lightimpact/core.py:98-99 | over a positive tractive energy the braking ratio φ is non-negative |
| Energy.RegenerationReducesAcceleration | lightimpact/core.py:100 | with a positive tractive energy and a non-negative µ, the ICV acceleration work is non-negative and the regeneration-reduced EV acceleration work is at most the ICV acceleration work |
| Energy.EvReferenceWorkAtMostIcv | lightimpact/core.py:88-102 | at 100 kg, with positive tractive energy, non-negative µ and a non-negative distance ratio, the EV needs at most the ICV's mechanical work |
| Energy.EvVehicleWorkAtMostIcv | lightimpact/core.py:109-119 | at vehicle mass, under the same conditions, the EV needs at most the ICV's mechanical work |
| Energy.NoTractionFails | lightimpact/core.py:99 | with a non-zero distance and no tractive Σ a·v·dt, the calculation fails on the braking-ratio denominator |
| Energy.DefaultThreeSampleWork | lightimpact/core.py:80-102 | with the default parameters and sums 100, 1000, -25, 125 the calculation succeeds, and the 100 kg works are (0.55·0.2281806 + 0.01 + 0.001)·100/23.26 MJ for the ICV and the same with W_A_EV ≈ 0.0099999 for the EV |
| Runner.CalculateErv | lightimpact/core.py:60-129 | a parameter dictionary missing a key fails with the missing-parameter error of unpacking, which names the first key missing in reading order; a complete one gives the energy balance of its unpacked record |
| Runner.RunCase | lightimpact/core.py:132-141 | a trace without the required columns fails with the column error; otherwise the case succeeds exactly when the energy balance of the case parameters does, with the same error; the reported work totals are the 100 kg, 100 km ICV and EV works, and the reported µdiff and ERV figures are the calculation's four results |
| Runner.ReportOf | lightimpact/core.py:140-141 | no contract of its own: the two totals as ERV·µdiff·LHV and ERV·µdiff, next to calculate_erv's four figures; `Runner.ReportRoundTrip` and `Runner.RunCase` state what they equal |
| Runner.ReportRoundTrip | lightimpact/core.py:140-141 | the totals recovered as ERV × µdiff (× LHV) are the 100 kg, 100 km works |
| Runner.CaseErv | lightimpact/core.py:137-138 | the dictionary-level calculation on the loaded subsets equals the energy balance of the case's unpacked parameters over the trace sums, and the LHV read by the report is the unpacked one |
| Runner.MassOverrideKeepsReferenceWork | lightimpact/core.py:132-141 | overriding `m_vehicle` leaves both reported work totals unchanged |
| Runner.NoTractiveSampleFails | lightimpact/core.py:99 | a trace with no sample of positive acceleration and positive speed, run with a non-zero distance, fails on the braking-ratio denominator m_ref·Σ a·v·dt |
| Runner.NoTractiveSampleNoWork | lightimpact/core.py:55 | a trace with no row of positive acceleration and positive speed has tractive Σ a·v·dt equal to 0 |
| Runner.ThreeSampleLoad | lightimpact/core.py:47-57 | the three-row table (standing, accelerating, braking) loads into unit time steps with one tractive and one braking sample |
| Runner.ThreeSampleSums | lightimpact/core.py:81-95 | the four sums of that table are 100, 1000, -25 and 125 |
| Runner.ThreeSampleScenario | lightimpact/core.py:132-141 | that table with no overrides runs successfully and reports the worked-out 100 kg ICV and EV work totals |

## Left out

- Reading the CSV file (`pd.read_csv`, the `FileNotFoundError` re-raise, lines 42-45): file I/O. The model starts from an already-parsed table.
- Trace.Load: `astype(float)` conversion of text cells and IEEE floating point are not modelled; cells are exact reals.
- Trace.Load: `fillna(1)` is modelled only for the first row. A missing (NaN) time cell at row i makes the difference NaN at row i and at row i+1, so Python gives a step of 1 to both rows; the model has no NaN cells.
- Energy.Calculate: in Python only a zero `ds` raises (`ZeroDivisionError` on plain floats). The other six zero denominators divide numpy floats and give `inf` or `nan` with a warning instead. The model returns a `DivisionByZero` error for each, naming the denominator, rather than modelling IEEE infinities.
- Params.FromMap: custom override keys that are not among the fifteen parameter names are not modelled, because `Key` enumerates the names the calculation reads. Python would carry such keys along unused.
- Printing the report (lines 143-148) and the `__main__` entry (lines 151-152): output only. `Runner.RunCase` returns the six figures instead.
- `examples/mm4r_case.py` and `setup.py` are not part of this model. The first is a standalone script that imports only pandas and numpy and recomputes the formulas at top level, reading `v` from a "Speed (km/h)" column; it does not call into `lightimpact`. The second is packaging.
