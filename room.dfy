/** `domain.Room`: one room, whose occupant, checked-in marker and
    reservation map its methods update in place. Each method performs the
    source's checks in the source's order and is specified by the matching
    transition of `RoomStates`. */
module Rooms {
  import opened Common
  import opened JavaStrings
  import opened Guests
  import opened Reservations
  import opened PassThrough
  import RS = RoomStates

  class Room {
    const number: Int32
    const roomType: RoomType
    var occupant: Option<Guest>
    var checkedInGuestId: Option<string>
    var reservations: map<string, Reservation>

    /** The room's mutable fields as a value of the state machine. */
    function State(): RS.RoomState
      reads this
    {
      RS.RoomState(occupant, checkedInGuestId, reservations)
    }

    /** The field assignments of `Room(int, RoomType)`, reached once `Create`'s checks have passed. */
    constructor (number: Int32, roomType: RoomType)
      requires number > 0
      ensures this.number == number && this.roomType == roomType
      ensures State() == RS.Empty && RS.Inv(State())
    {
      this.number := number;
      this.roomType := roomType;
      this.reservations := map[];
      this.occupant := None;
      this.checkedInGuestId := None;
    }

    /** `new Room(number, roomType)`: a non-positive number, then a null type,
        throw IllegalArgument; otherwise a fresh, available room. */
    static method Create(number: Int32, roomType: Option<RoomType>) returns (r: Result<Room>)
      ensures r.Ok? <==> number > 0 && roomType.Some?
      ensures number <= 0 ==> r == Err(IllegalArgument(NonPositiveRoomNumber))
      ensures number > 0 && roomType.None? ==> r == Err(IllegalArgument(RoomTypeNull))
      ensures r.Ok? ==>
        && fresh(r.value)
        && r.value.number == number && r.value.roomType == roomType.value
        && r.value.State() == RS.Empty && r.value.IsAvailable()
    {
      if number <= 0 {
        return Err(IllegalArgument(NonPositiveRoomNumber));
      }
      if roomType.None? {
        return Err(IllegalArgument(RoomTypeNull));
      }
      var room := new Room(number, roomType.value);
      return Ok(room);
    }

    /** `isOccupied()`: a guest is in the room. */
    predicate IsOccupied()
      reads this
      ensures IsOccupied() <==> RS.IsOccupied(State())
    {
      occupant.Some?
    }

    /** `isAvailable()`: nobody in the room and no reservation held. */
    predicate IsAvailable()
      reads this
      ensures IsAvailable() <==> RS.IsAvailable(State())
      ensures IsAvailable() <==> occupant.None? && reservations == map[]
    {
      RS.AvailableIffUnoccupiedAndUnbooked(State());
      !IsOccupied() && |reservations| == 0
    }

    /** `getReservationCount()`. */
    function GetReservationCount(): nat
      reads this
    {
      |reservations|
    }

    /** `addReservation(reservation, guest)`. */
    method AddReservation(reservation: Option<Reservation>, guest: Option<Guest>) returns (out: Outcome)
      modifies this
      ensures (out, State()) == RS.Apply(old(State()), RS.AddReservation(old(State()), reservation, guest))
      ensures (guest.Some? ==> ValidGuest(guest.value)) && RS.Inv(old(State())) ==> RS.Inv(State())
    {
      if reservation.None? {
        return Fail(IllegalArgument(ReservationNull));
      }
      if guest.None? {
        return Fail(IllegalArgument(GuestNull));
      }
      if IsOccupied() {
        return Fail(IllegalState(RoomOccupied));
      }
      var guestId := NameAsString(guest.value);
      reservations := reservations[guestId := reservation.value];
      return Pass;
    }

    /** `removeReservation(guestId)`. */
    method RemoveReservation(guestId: Option<string>) returns (out: Outcome)
      modifies this
      ensures (out, State()) == RS.Apply(old(State()), RS.RemoveReservation(old(State()), guestId))
      ensures RS.Inv(old(State())) ==> RS.Inv(State())
    {
      if guestId.None? || IsBlank(guestId.value) {
        return Fail(IllegalArgument(GuestIdMissing));
      }
      if guestId.value !in reservations {
        return Fail(IllegalArgument(NoReservation));
      }
      reservations := reservations - {guestId.value};
      return Pass;
    }

    /** `checkInGuest(guestId)`: validates and records the marker; moving the
        guest in is the separate `SetOccupant` call. */
    method CheckInGuest(guestId: Option<string>) returns (out: Outcome)
      modifies this
      ensures (out, State()) == RS.Apply(old(State()), RS.CheckInGuest(old(State()), guestId))
      ensures RS.Inv(old(State())) ==> RS.Inv(State())
    {
      if guestId.None? || IsBlank(guestId.value) {
        return Fail(IllegalArgument(GuestIdMissing));
      }
      if IsOccupied() {
        return Fail(IllegalState(RoomOccupied));
      }
      if guestId.value !in reservations {
        return Fail(IllegalState(NoReservation));
      }
      checkedInGuestId := guestId;
      return Pass;
    }

    /** `setOccupant(guest)`. */
    method SetOccupant(guest: Option<Guest>) returns (out: Outcome)
      modifies this
      ensures (out, State()) == RS.Apply(old(State()), RS.SetOccupant(old(State()), guest))
      ensures (guest.Some? ==> ValidGuest(guest.value)) && RS.Inv(old(State())) ==> RS.Inv(State())
    {
      if guest.None? {
        return Fail(IllegalArgument(GuestNull));
      }
      if IsOccupied() {
        return Fail(IllegalState(RoomOccupied));
      }
      occupant := guest;
      return Pass;
    }

    /** `checkOutGuest(guestId)`. */
    method CheckOutGuest(guestId: Option<string>) returns (out: Outcome)
      modifies this
      ensures (out, State()) == RS.Apply(old(State()), RS.CheckOutGuest(old(State()), guestId))
      ensures RS.Inv(old(State())) ==> RS.Inv(State())
    {
      if guestId.None? || IsBlank(guestId.value) {
        return Fail(IllegalArgument(GuestIdMissing));
      }
      if !IsOccupied() {
        return Fail(IllegalState(NoOccupant));
      }
      var currentGuestName := NameAsString(occupant.value);
      if currentGuestName != guestId.value {
        return Fail(IllegalState(GuestIdMismatch));
      }
      occupant := None;
      checkedInGuestId := None;
      if guestId.value in reservations {
        reservations := reservations - {guestId.value};
      }
      return Pass;
    }
  }
}
