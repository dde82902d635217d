/** Numeric cells and the element-wise arithmetic pandas applies to them.
    pandas arithmetic propagates NaN: a result cell is missing as soon as one
    operand cell is missing. */
module Cells {
  import opened Wrappers

  /** Light years in one parsec. */
  const PARSEC_TO_LY: real := 3.26156

  function Abs(x: real): (a: real)
    ensures a >= 0.0
    ensures a == x || a == -x
  {
    if x < 0.0 then -x else x
  }

  function Min(x: real, y: real): real { if x <= y then x else y }

  function Max(x: real, y: real): real { if x <= y then y else x }

  /** A distance in parsecs converted to light years (`pc * PARSEC_TO_LY`):
      missing exactly when `pc` is, with the sign of `pc`, and converted back
      by dividing by the factor. */
  function ToLightYears(pc: Option<real>): (ly: Option<real>)
    ensures ly.Some? <==> pc.Some?
    ensures ly.Some? ==> ly.value / PARSEC_TO_LY == pc.value
    ensures ly.Some? ==> (ly.value >= 0.0 <==> pc.value >= 0.0)
  {
    if pc.None? then None else Some(pc.value * PARSEC_TO_LY)
  }

  /** The aggregated uncertainty of an asymmetric error bar,
      `(|err1| + |err2|) / 2`: missing exactly when either error cell is,
      otherwise never negative and between the two error magnitudes. */
  function MeanAbsError(err1: Option<real>, err2: Option<real>): (u: Option<real>)
    ensures u.Some? <==> err1.Some? && err2.Some?
    ensures u.Some? ==> u.value >= 0.0
    ensures u.Some? ==>
      Min(Abs(err1.value), Abs(err2.value)) <= u.value <= Max(Abs(err1.value), Abs(err2.value))
  {
    if err1.None? || err2.None? then None
    else Some((Abs(err1.value) + Abs(err2.value)) / 2.0)
  }
}
