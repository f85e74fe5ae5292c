/**
 The parameters of a case: the default buckets, their key-by-key merge with
 user overrides, and the typed record the calculation unpacks them into.
 */
module Params {
  import opened Errors

  /** The parameter names the calculation reads, listed in the order it reads them. */
  datatype Key =
    | MRef | MVehicle | Gravity | FR | FRot | RhoAir | Cw | AFrontal | Mu
    | Ds | DsRef | RollPosFactor | CFuel | CEl | LhvFuel

  /** The dictionary key under which each parameter is stored. */
  function Name(k: Key): string {
    match k
    case MRef => "m_ref"
    case MVehicle => "m_vehicle"
    case Gravity => "g"
    case FR => "f_r"
    case FRot => "f_Rot"
    case RhoAir => "rho_air"
    case Cw => "cw"
    case AFrontal => "A_frontal"
    case Mu => "mu"
    case Ds => "ds"
    case DsRef => "ds_ref"
    case RollPosFactor => "roll_pos_factor"
    case CFuel => "c_fuel_WLTP"
    case CEl => "c_el_WLTP"
    case LhvFuel => "LHV_fuel"
  }

  const ReadingOrder: seq<Key> :=
    [MRef, MVehicle, Gravity, FR, FRot, RhoAir, Cw, AFrontal, Mu,
     Ds, DsRef, RollPosFactor, CFuel, CEl, LhvFuel]

  /** The default value of every parameter, as the three default buckets give it. */
  function DefaultValue(k: Key): real {
    match k
    case MRef => 100.0       // reference mass [kg]
    case DsRef => 100.0      // reference distance [km]
    case Gravity => 9.81     // [m/s²]
    case RhoAir => 1.2       // air density [kg/m³]
    case LhvFuel => 32.3     // lower heating value of gasoline [MJ/L]
    case MVehicle => 1595.0  // vehicle mass [kg]
    case FR => 0.01          // rolling resistance coefficient
    case FRot => 0.10        // rotational mass factor
    case Cw => 0.30          // drag coefficient
    case AFrontal => 2.07    // frontal area [m²]
    case Mu => 0.3           // regenerative braking efficiency
    case Ds => 23.26         // distance of WLTP class 3b [km]
    case RollPosFactor => 0.55 // share of rolling resistance during traction
    case CFuel => 10.35      // certified fuel consumption [L/100km]
    case CEl => 17.9         // certified electricity consumption [kWh/100km]
  }

  /** The keys of the three default buckets: physical constants, vehicle, WLTP cycle. */
  const FixedKeys: set<Key> := {MRef, DsRef, Gravity, RhoAir, LhvFuel}
  const VehicleKeys: set<Key> := {MVehicle, FR, FRot, Cw, AFrontal, Mu}
  const WltpKeys: set<Key> := {Ds, RollPosFactor, CFuel, CEl}

  lemma KeyCases(k: Key)
    ensures k in ReadingOrder
    ensures k in FixedKeys || k in VehicleKeys || k in WltpKeys
  {
    match k {
      case MRef => case MVehicle => case Gravity => case FR => case FRot =>
      case RhoAir => case Cw => case AFrontal => case Mu => case Ds =>
      case DsRef => case RollPosFactor => case CFuel => case CEl => case LhvFuel =>
    }
  }

  /** A flat parameter dictionary. */
  type ParamMap = map<Key, real>

  /** The default bucket holding the given keys. */
  function Bucket(keys: set<Key>): ParamMap {
    map k | k in keys :: DefaultValue(k)
  }

  const FixedParams: ParamMap := Bucket(FixedKeys)
  const VehicleParams: ParamMap := Bucket(VehicleKeys)
  const WltpParams: ParamMap := Bucket(WltpKeys)

  /**
   The dictionary `base` updated with `over`: every key of either, and for a
   key of both the value of `over`.
   */
  function Override(base: ParamMap, over: ParamMap): (p: ParamMap)
    ensures p.Keys == base.Keys + over.Keys
    ensures forall k :: k in over ==> p[k] == over[k]
    ensures forall k :: k in base && k !in over ==> p[k] == base[k]
  {
    base + over
  }

  /** Every parameter with its default value. */
  function Defaults(): (d: ParamMap)
    ensures forall k :: k in d && d[k] == DefaultValue(k)
  {
    map k: Key | true :: DefaultValue(k)
  }

  /** The three default buckets merged are the defaults. */
  lemma BucketsMergeToDefaults()
    ensures Override(Override(FixedParams, VehicleParams), WltpParams) == Defaults()
  {
    var d := Override(Override(FixedParams, VehicleParams), WltpParams);
    forall k
      ensures k in d && d[k] == DefaultValue(k)
    {
      KeyCases(k);
    }
  }

  /** The parameters of a case: the defaults, with the custom values winning key by key. */
  function CaseParams(custom: ParamMap): (p: ParamMap)
    ensures forall k :: k in p
    ensures forall k :: k in custom ==> p[k] == custom[k]
    ensures forall k :: k !in custom ==> p[k] == DefaultValue(k)
  {
    Override(Defaults(), custom)
  }

  /** The unpacked parameters of one calculation. */
  datatype Parameters = Parameters(
    mRef: real, mVehicle: real, g: real, fR: real, fRot: real, rhoAir: real, cw: real,
    aFrontal: real, mu: real, ds: real, dsRef: real, rollPosFactor: real,
    cFuel: real, cEl: real, lhvFuel: real)

  /** The value `x` holds for parameter `k`. */
  function Get(x: Parameters, k: Key): real {
    match k
    case MRef => x.mRef
    case MVehicle => x.mVehicle
    case Gravity => x.g
    case FR => x.fR
    case FRot => x.fRot
    case RhoAir => x.rhoAir
    case Cw => x.cw
    case AFrontal => x.aFrontal
    case Mu => x.mu
    case Ds => x.ds
    case DsRef => x.dsRef
    case RollPosFactor => x.rollPosFactor
    case CFuel => x.cFuel
    case CEl => x.cEl
    case LhvFuel => x.lhvFuel
  }

  /** The dictionary of a record: every key, with the record's value. */
  function ToMap(x: Parameters): ParamMap {
    map k: Key | true :: Get(x, k)
  }

  /** The first of `keys` missing from `p`. */
  function FirstMissing(keys: seq<Key>, p: ParamMap): (i: nat)
    requires exists j :: 0 <= j < |keys| && keys[j] !in p
    ensures i < |keys| && keys[i] !in p
    ensures forall j :: 0 <= j < i ==> keys[j] in p
  {
    if keys[0] !in p then 0
    else
      assert exists j :: 0 <= j < |keys[1..]| && keys[1..][j] !in p by {
        var j :| 0 <= j < |keys| && keys[j] !in p;
        assert keys[1..][j - 1] == keys[j];
      }
      1 + FirstMissing(keys[1..], p)
  }

  /**
   Unpacks a dictionary into a record. A missing key fails with the first key
   missing in reading order.
   */
  function FromMap(p: ParamMap): (r: Result<Parameters>)
    ensures r.Ok? <==> forall k :: k in p
    ensures r.Ok? ==> forall k :: Get(r.value, k) == p[k]
    ensures r.Err? ==> exists i :: && 0 <= i < |ReadingOrder|
                                   && r.error == MissingParameter(Name(ReadingOrder[i]))
                                   && ReadingOrder[i] !in p
                                   && forall j :: 0 <= j < i ==> ReadingOrder[j] in p
  {
    if forall k :: k in p then
      Ok(Parameters(p[MRef], p[MVehicle], p[Gravity], p[FR], p[FRot], p[RhoAir], p[Cw],
                    p[AFrontal], p[Mu], p[Ds], p[DsRef], p[RollPosFactor], p[CFuel], p[CEl],
                    p[LhvFuel]))
    else
      assert exists j :: 0 <= j < |ReadingOrder| && ReadingOrder[j] !in p by {
        var k :| k !in p;
        KeyCases(k);
      }
      Err(MissingParameter(Name(ReadingOrder[FirstMissing(ReadingOrder, p)])))
  }

  /** Unpacking the dictionary of a record gives the record back. */
  lemma FromMapToMap(x: Parameters)
    ensures FromMap(ToMap(x)) == Ok(x)
  {
    var m := ToMap(x);
    assert forall k :: k in m;
    assert m[MRef] == x.mRef && m[MVehicle] == x.mVehicle && m[Gravity] == x.g;
    assert m[FR] == x.fR && m[FRot] == x.fRot && m[RhoAir] == x.rhoAir;
    assert m[Cw] == x.cw && m[AFrontal] == x.aFrontal && m[Mu] == x.mu;
    assert m[Ds] == x.ds && m[DsRef] == x.dsRef && m[RollPosFactor] == x.rollPosFactor;
    assert m[CFuel] == x.cFuel && m[CEl] == x.cEl && m[LhvFuel] == x.lhvFuel;
  }

  /** The unpacked parameters of a case: every override applied, no key missing. */
  function CaseParameters(custom: ParamMap): (x: Parameters)
    ensures forall k :: Get(x, k) == CaseParams(custom)[k]
  {
    FromMap(CaseParams(custom)).value
  }

  /** Unpacking a complete dictionary with one value changed changes one field. */
  lemma UnpackUpdatedMass(p: ParamMap, m: real)
    requires forall k :: k in p
    ensures FromMap(p[MVehicle := m]) == Ok(FromMap(p).value.(mVehicle := m))
  {
  }

  /** Overriding the vehicle mass changes that one field of the case parameters and nothing else. */
  lemma VehicleMassOverride(custom: ParamMap, m: real)
    ensures CaseParameters(custom[MVehicle := m]) == CaseParameters(custom).(mVehicle := m)
  {
    var p := CaseParams(custom);
    assert CaseParams(custom[MVehicle := m]) == p[MVehicle := m];
    UnpackUpdatedMass(p, m);
  }

  /** The case distance is the custom one when given, else the WLTP class 3b distance. */
  lemma CaseDistance(custom: ParamMap)
    ensures CaseParameters(custom).ds == if Ds in custom then custom[Ds] else 23.26
  {
    var x := CaseParameters(custom);
    assert x.ds == Get(x, Ds);

  }

  /** The default parameters as a record. */
  const DefaultParameters: Parameters :=
    Parameters(100.0, 1595.0, 9.81, 0.01, 0.10, 1.2, 0.30, 2.07, 0.3,
               23.26, 100.0, 0.55, 10.35, 17.9, 32.3)

  /** The default record holds every parameter's default value. */
  lemma DefaultParametersValues(k: Key)
    ensures Get(DefaultParameters, k) == DefaultValue(k)
  {
  }

  /** Without overrides a case runs on the default parameters. */
  lemma NoOverrideIsDefault()
    ensures CaseParameters(map[]) == DefaultParameters
  {
    forall k
      ensures ToMap(DefaultParameters)[k] == CaseParams(map[])[k]
    {
      DefaultParametersValues(k);
    }
    assert ToMap(DefaultParameters) == CaseParams(map[]);
    FromMapToMap(DefaultParameters);
  }
}
