/** Failure-compatible results and the error taxonomy of the ERV pipeline. */
module Errors {

  /** The denominators of the ERV calculation, in the order they are divided by. */
  datatype Denominator =
    | Distance                // ds_ref / ds
    | ReferenceTractiveEnergy // m_ref * a_v_integral, the denominator of phi
    | VehicleTractiveEnergy   // m_vehicle * a_v_integral, the denominator of phi_total
    | CertifiedFuelEnergy     // c_fuel_WLTP * LHV_fuel
    | CertifiedElectricEnergy // c_el_WLTP * 3.6
    | IcvEfficiency           // mu_diff_ICV * LHV_fuel
    | EvEfficiency            // mu_diff_EV

  datatype Error =
    | MissingColumns(required: set<string>)
    | MissingParameter(key: string)
    | DivisionByZero(at: Denominator)

  /** Either a value or the one error that stopped the computation. */
  datatype Result<+T> = Ok(value: T) | Err(error: Error) {

    predicate IsFailure() {
      Err?
    }

    function PropagateFailure<U>(): Result<U>
      requires Err?
    {
      Err(error)
    }

    function Extract(): T
      requires Ok?
    {
      value
    }
  }
}
