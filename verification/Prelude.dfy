/** Small datatypes and the ceiling division shared by the other modules. */
module Prelude {

  datatype Option<+T> = None | Some(value: T) {
    function GetOr(default: T): T {
      if None? then default else value
    }
  }

  datatype Result<+T, +E> = Ok(value: T) | Err(error: E)

  /** The least integer at or above n/d. */
  function CeilDiv(n: nat, d: nat): (r: nat)
    requires 0 < d
    ensures (r - 1) * d < n <= r * d
  {
    (n + d - 1) / d
  }
}
