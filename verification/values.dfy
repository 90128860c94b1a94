/** Value types shared by every entity: Java's nullable references, the opaque
    numeric and date types the application never computes on, and the failures
    the services raise. */
module Values {

  /** A Java reference that may be null. */
  datatype Option<+T> = None | Some(value: T)

  /** java.math.BigDecimal, kept opaque (unscaled value and scale): prices and
      payment amounts are copied, never computed on. */
  datatype Decimal = Decimal(unscaled: int, scale: int)

  /** java.time.LocalDate, kept opaque. */
  datatype LocalDate = LocalDate(epochDay: int)

  /** java.time.LocalDateTime, kept opaque. */
  datatype LocalDateTime = LocalDateTime(epochSecond: int, nano: nat)

  /** The exceptions the services let escape. */
  datatype Error =
    | BeerNotFound(beerId: int)           // EntityNotFoundException "Beer not found with ID: ..."
    | BeerOrderNotFound(beerOrderId: int) // EntityNotFoundException "Beer Order not found with ID: ..."
    | NullId                              // IllegalArgumentException: findById(null)
    | NullLink                            // NullPointerException: a shipment without an order

  /** A service call that either returns a value or throws. */
  datatype Result<+T> = Ok(value: T) | Err(error: Error)

  /** The null-ignoring copy of one property: a present patch value replaces
      the current one, an absent one leaves it alone. */
  function Overlay<T>(patch: Option<T>, current: Option<T>): (r: Option<T>)
    ensures patch.Some? ==> r == patch
    ensures patch.None? ==> r == current
  {
    if patch.Some? then patch else current
  }
}
