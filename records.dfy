/**
  The rows of the booking database: flights (Resource), reservations, payments and users.
  Money is held in integer cents throughout; a payment's decimal euro amount `cents / 100` is
  exact, so `amountCents` carries the same information.
*/
module Records {
  import opened Common

  type Id = string

  /** Milliseconds since the epoch, as a JavaScript `Date` holds them. */
  type Time = int

  const TwoHoursMs: int := 2 * 60 * 60 * 1000

  datatype ReservationStatus = PendingPayment | Confirmed | Cancelled

  datatype PaymentStatus = Pending | Completed | Failed | RefundInitiated

  /** Free-form JSON metadata of a flight (flightNumber, origin, destination, departureTime, ...). */
  type Metadata = map<string, string>

  /** `metadata?.key`: the value under `key`, absent when the key is. */
  function Field(m: Metadata, key: string): (v: Option<string>)
    ensures v.Some? <==> key in m
    ensures v.Some? ==> v.value == m[key]
  {
    if key in m then Some(m[key]) else None
  }

  datatype Passenger = Passenger(firstName: string, lastName: string, passportNumber: string)

  const BlankPassenger: Passenger := Passenger("", "", "")

  /** A bookable flight. `kind` is the `type` column ("FLIGHT"). */
  datatype Resource = Resource(
    id: Id,
    name: string,
    description: Option<string>,
    kind: string,
    maxSlots: int,
    availableSlots: int,
    priceInCents: int,
    currency: string,
    metadata: Metadata,
    createdAt: Time)

  datatype Reservation = Reservation(
    id: Id,
    userId: Id,
    resourceId: Id,
    passengerCount: int,
    passengers: seq<Passenger>,
    status: ReservationStatus,
    startTime: Time,
    endTime: Time,
    createdAt: Time,
    confirmedAt: Option<Time>)

  /**
    A payment row. `sessionId` is the unique checkout-session id used to find the payment again;
    `recordedPassengers` and `testMode` are the row's JSON metadata.
  */
  datatype Payment = Payment(
    id: Id,
    reservationId: Id,
    intentId: string,
    sessionId: string,
    amountCents: int,
    currency: string,
    status: PaymentStatus,
    paidAt: Option<Time>,
    recordedPassengers: int,
    testMode: bool)

  /** A user row, mirrored from the identity provider and keyed by its `clerkId`. */
  datatype User = User(
    id: Id,
    clerkId: string,
    email: string,
    firstName: Option<string>,
    lastName: Option<string>,
    role: string)
}
