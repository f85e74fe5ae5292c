/**
 Preprocessing of a driving-cycle trace: the schema check, the per-sample
 time steps and the split into tractive and braking samples.
 */
module Trace {
  import opened Errors

  const SpeedColumn: string := "Speed (m/s)"
  const AccelerationColumn: string := "Acceleration (m/s2)"
  const TimeColumn: string := "Time (s)"
  const RequiredColumns: set<string> := {SpeedColumn, AccelerationColumn, TimeColumn}

  /** An already-parsed table: its header and, per row, the cell of each column. */
  datatype Table = Table(columns: set<string>, rows: seq<map<string, real>>) {

    /** Every row has a cell for every header column, as in any data frame. */
    predicate Rectangular() {
      forall i :: 0 <= i < |rows| ==> columns <= rows[i].Keys
    }
  }

  /** One preprocessed sample: velocity [m/s], acceleration [m/s²] and time step [s]. */
  datatype Step = Step(v: real, a: real, dt: real)

  /** The whole preprocessed trace and its two phase subsets. */
  datatype Loaded = Loaded(trace: seq<Step>, tractive: seq<Step>, braking: seq<Step>)

  // ---------------------------------------------------------------------
  // Time steps
  // ---------------------------------------------------------------------

  /** The difference of each time against its predecessor, the first one against `prev`. */
  function DiffFrom(prev: real, times: seq<real>): (dt: seq<real>)
    ensures |dt| == |times|
    ensures |times| > 0 ==> dt[0] == times[0] - prev
    ensures forall i :: 0 < i < |times| ==> dt[i] == times[i] - times[i - 1]
    decreases |times|
  {
    if times == [] then [] else [times[0] - prev] + DiffFrom(times[0], times[1..])
  }

  /** The time steps of a trace: the first sample gets a step of 1 s, whatever its time. */
  function TimeSteps(times: seq<real>): (dt: seq<real>)
    ensures |dt| == |times|
    ensures |times| > 0 ==> dt[0] == 1.0
    ensures forall i :: 0 < i < |times| ==> dt[i] == times[i] - times[i - 1]
  {
    if times == [] then [] else [1.0] + DiffFrom(times[0], times[1..])
  }

  /** The running times reached from `start` by the given steps (a cumulative sum). */
  function Accumulate(start: real, steps: seq<real>): (times: seq<real>)
    ensures |times| == |steps|
    decreases |steps|
  {
    if steps == [] then [] else [start + steps[0]] + Accumulate(start + steps[0], steps[1..])
  }

  lemma {:induction false} AccumulateInvertsDiff(prev: real, times: seq<real>)
    ensures Accumulate(prev, DiffFrom(prev, times)) == times
    decreases |times|
  {
    if times != [] {
      AccumulateInvertsDiff(times[0], times[1..]);
    }
  }

  lemma {:induction false} DiffInvertsAccumulate(start: real, steps: seq<real>)
    ensures DiffFrom(start, Accumulate(start, steps)) == steps
    decreases |steps|
  {
    if steps != [] {
      DiffInvertsAccumulate(start + steps[0], steps[1..]);
    }
  }

  /** The time steps lose only the first time value: it and the later steps give back every time. */
  lemma TimeStepsRoundTrip(times: seq<real>)
    requires |times| > 0
    ensures [times[0]] + Accumulate(times[0], TimeSteps(times)[1..]) == times
  {
    assert TimeSteps(times)[1..] == DiffFrom(times[0], times[1..]);
    AccumulateInvertsDiff(times[0], times[1..]);
  }

  // ---------------------------------------------------------------------
  // Phase subsets
  // ---------------------------------------------------------------------

  datatype Phase = Tractive | Braking

  /** Tractive: accelerating while moving; braking: decelerating while moving. */
  predicate InPhase(ph: Phase, s: Step) {
    match ph
    case Tractive => s.a > 0.0 && s.v > 0.0
    case Braking => s.a < 0.0 && s.v > 0.0
  }

  /** `sub` is `xs` with some elements left out and the rest kept in order. */
  ghost predicate Subsequence<T>(sub: seq<T>, xs: seq<T>)
    decreases |xs|
  {
    || sub == []
    || (&& xs != []
        && ((sub[0] == xs[0] && Subsequence(sub[1..], xs[1..])) || Subsequence(sub, xs[1..])))
  }

  /** The samples of `steps` in phase `ph`, in trace order (a boolean-mask row selection). */
  function Select(ph: Phase, steps: seq<Step>): (sub: seq<Step>)
    ensures Subsequence(sub, steps)
    ensures forall i :: 0 <= i < |sub| ==> InPhase(ph, sub[i])
    ensures forall s :: s in steps && InPhase(ph, s) ==> s in sub
  {
    if steps == [] then []
    else
      var rest := Select(ph, steps[1..]);
      if InPhase(ph, steps[0]) then
        assert ([steps[0]] + rest)[1..] == rest;
        [steps[0]] + rest
      else rest
  }

  lemma {:induction false} SubsequenceMembers<T>(sub: seq<T>, xs: seq<T>)
    requires Subsequence(sub, xs)
    ensures |sub| <= |xs|
    ensures forall x :: x in sub ==> x in xs
    decreases |xs|
  {
    if sub != [] {
      if sub[0] == xs[0] && Subsequence(sub[1..], xs[1..]) {
        SubsequenceMembers(sub[1..], xs[1..]);
        assert sub == [sub[0]] + sub[1..];
      } else {
        SubsequenceMembers(sub, xs[1..]);
      }
    }
  }

  /** A sample is selected exactly when it is in the trace and in the phase. */
  lemma SelectMembership(ph: Phase, steps: seq<Step>, s: Step)
    ensures s in Select(ph, steps) <==> s in steps && InPhase(ph, s)
  {
    SubsequenceMembers(Select(ph, steps), steps);
  }

  /** Selection distributes over concatenation: it keeps and orders samples one by one. */
  lemma {:induction false} SelectAppend(ph: Phase, xs: seq<Step>, ys: seq<Step>)
    ensures Select(ph, xs + ys) == Select(ph, xs) + Select(ph, ys)
  {
    if xs != [] {
      assert (xs + ys)[1..] == xs[1..] + ys;
      SelectAppend(ph, xs[1..], ys);
    } else {
      assert xs + ys == ys;
    }
  }

  /** A coasting or standing sample (`a == 0` or `v <= 0`) is in neither subset. */
  lemma IdleSampleInNeither(steps: seq<Step>, s: Step)
    requires s.a == 0.0 || s.v <= 0.0
    ensures s !in Select(Tractive, steps) && s !in Select(Braking, steps)
  {
  }

  /**
   The two subsets are disjoint: together they use every trace sample at most
   once, and no sample value occurs in both.
   */
  lemma {:induction false} PhasesDisjoint(steps: seq<Step>)
    ensures multiset(Select(Tractive, steps)) + multiset(Select(Braking, steps)) <= multiset(steps)
    ensures forall s :: s in Select(Tractive, steps) ==> s !in Select(Braking, steps)
  {
    if steps != [] {
      PhasesDisjoint(steps[1..]);
      assert steps == [steps[0]] + steps[1..];
      assert multiset(steps) == multiset{steps[0]} + multiset(steps[1..]);
    }
  }

  // ---------------------------------------------------------------------
  // Loader
  // ---------------------------------------------------------------------

  /** The times column of a table that has one. */
  function Times(t: Table): (times: seq<real>)
    requires t.Rectangular() && TimeColumn in t.columns
    ensures |times| == |t.rows|
    ensures forall i :: 0 <= i < |t.rows| ==> times[i] == t.rows[i][TimeColumn]
  {
    seq(|t.rows|, i requires 0 <= i < |t.rows| => t.rows[i][TimeColumn])
  }

  /**
   Checks the schema, reads velocity and acceleration, derives the time steps
   and selects the tractive and braking samples.
   */
  function Load(t: Table): (r: Result<Loaded>)
    requires t.Rectangular()
    ensures r.Err? <==> !(RequiredColumns <= t.columns)
    ensures r.Err? ==> r.error == MissingColumns(RequiredColumns)
    ensures r.Ok? ==> |r.value.trace| == |t.rows|
    ensures r.Ok? ==> forall i :: 0 <= i < |t.rows| ==>
                        && r.value.trace[i].v == t.rows[i][SpeedColumn]
                        && r.value.trace[i].a == t.rows[i][AccelerationColumn]
    ensures r.Ok? && |t.rows| > 0 ==> r.value.trace[0].dt == 1.0
    ensures r.Ok? ==> forall i :: 0 < i < |t.rows| ==>
                        r.value.trace[i].dt == t.rows[i][TimeColumn] - t.rows[i - 1][TimeColumn]
    ensures r.Ok? ==> r.value.tractive == Select(Tractive, r.value.trace)
    ensures r.Ok? ==> r.value.braking == Select(Braking, r.value.trace)
  {
    if !(RequiredColumns <= t.columns) then
      Err(MissingColumns(RequiredColumns))
    else
      var dts := TimeSteps(Times(t));
      var trace := seq(|t.rows|, i requires 0 <= i < |t.rows| =>
                         Step(t.rows[i][SpeedColumn], t.rows[i][AccelerationColumn], dts[i]));
      Ok(Loaded(trace, Select(Tractive, trace), Select(Braking, trace)))
  }
}
