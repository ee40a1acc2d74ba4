/** Shared vocabulary of the hotel model: Java's null, its two exception
    classes, and its 32-bit `int`. */
module Common {

  /** A Java reference that may be null. */
  datatype Option<+T> = None | Some(value: T)

  /** A call that returns a value or throws. */
  datatype Result<+T> = Ok(value: T) | Err(error: Error)

  /** A `void` call that returns normally or throws. */
  datatype Outcome = Pass | Fail(error: Error)

  /** The two exception classes of the domain, tagged with the check that threw. */
  datatype Error = IllegalArgument(reason: Reason) | IllegalState(reason: Reason)

  /** One constructor per distinct throw site (the message texts are not modelled). */
  datatype Reason =
    // value objects
    | FirstNameMissing | LastNameMissing
    | StreetMissing | CityMissing | CountryMissing | PostalCodeMissing
    | IdentityNumberMissing | IdentityTypeMissing
    | CardNumberMissing | CardholderMissing | ExpiryMissing
    | GuestNameNull | GuestAddressNull
    | NonPositiveCount
    | StartDateNull | EndDateNull | GuestCountNull | EndNotAfterStart
    // Room
    | NonPositiveRoomNumber | RoomTypeNull | ReservationNull | GuestNull
    | GuestIdMissing | RoomOccupied | NoReservation | NoOccupant | GuestIdMismatch
    // Hotel
    | HotelNameNull | RoomNull | DuplicateRoom | UnknownRoom
    // HotelChain
    | ChainNameMissing | HotelNull | DuplicateHotel | UnknownHotel | PayerNull

  /** Java's `int`. */
  type Int32 = x: int | -0x8000_0000 <= x < 0x8000_0000

  /** Two's-complement wrap-around of Java `int` arithmetic (and of an `(int)` cast of a `long`). */
  function Wrap32(x: int): (r: Int32)
    ensures (x - r) % 0x1_0000_0000 == 0
    ensures -0x8000_0000 <= x < 0x8000_0000 ==> r == x
  {
    (x + 0x8000_0000) % 0x1_0000_0000 - 0x8000_0000
  }
}
