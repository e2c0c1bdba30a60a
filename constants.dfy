/** The enumerations and durations of backend/src/utils/constants.js. */
module Constants {

  /** `SEAT_STATUS`: a seat is AVAILABLE, LOCKED (soft-held) or BOOKED. */
  datatype SeatStatus = Available | Booked | Locked

  /** A booking's `bookingStatus`. The four values of `BOOKING_STATUS`, plus
      `Other` for the lower-case strings that the payment service writes
      ("completed", "refunded") and for any other string a caller filters by. */
  datatype BookingStatus = Pending | Confirmed | Cancelled | Expired | Other(name: string)
  {
    /** The string stored in the record. */
    function Name(): string
    {
      match this
      case Pending => "PENDING"
      case Confirmed => "CONFIRMED"
      case Cancelled => "CANCELLED"
      case Expired => "EXPIRED"
      case Other(n) => n
    }
  }

  /** A payment's `paymentStatus`. `PAYMENT_STATUS` defines PENDING, SUCCESS
      and FAILED only; the payment service also assigns
      `PAYMENT_STATUS.COMPLETED` and `PAYMENT_STATUS.REFUNDED`, which both
      evaluate to `undefined`: that one value is `PaymentUndefined`. */
  datatype PaymentStatus = PaymentPending | PaymentSuccess | PaymentFailed | PaymentUndefined
  {
    /** The status as a template string renders it. */
    function Name(): string
    {
      match this
      case PaymentPending => "PENDING"
      case PaymentSuccess => "SUCCESS"
      case PaymentFailed => "FAILED"
      case PaymentUndefined => "undefined"
    }
  }

  /** `SEAT_LOCK_EXPIRY`: ten minutes, in milliseconds. */
  const SEAT_LOCK_EXPIRY: int := 10 * 60 * 1000
}
