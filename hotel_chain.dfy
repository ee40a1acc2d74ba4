/** `domain.HotelChain`: the coordinator. It files hotels under their names
    and routes each reservation, cancellation, check-in and check-out to one
    room, after a validator has checked the hotel, the arguments and the room
    in a fixed order. A validator either throws or answers true, so the
    chain's own "validation failed" exception is never raised. */
module HotelChains {
  import opened Common
  import opened JavaStrings
  import opened Guests
  import opened Reservations
  import opened PassThrough
  import RS = RoomStates
  import opened Rooms
  import opened Hotels

  class HotelChain {
    const name: string
    var hotels: map<string, Hotel>

    /** The field assignments of `HotelChain(String)`, reached once `Create`'s check has passed. */
    constructor (name: string)
      requires !IsBlank(name)
      ensures this.name == name && hotels == map[] && Valid()
    {
      this.name := name;
      this.hotels := map[];
    }

    /** `new HotelChain(name)`: a null or blank name throws IllegalArgument;
        otherwise a fresh chain, without hotels, keeping the name untrimmed. */
    static method Create(name: Option<string>) returns (r: Result<HotelChain>)
      ensures r.Ok? <==> !IsNullOrBlank(name)
      ensures r.Err? ==> r.error == IllegalArgument(ChainNameMissing)
      ensures r.Ok? ==> fresh(r.value) && r.value.name == name.value && r.value.GetHotelCount() == 0 && r.value.Valid()
    {
      if name.None? || IsBlank(name.value) {
        return Err(IllegalArgument(ChainNameMissing));
      }
      var chain := new HotelChain(name.value);
      return Ok(chain);
    }

    /** `addHotel(hotel)`: a null hotel throws IllegalArgument, a hotel whose
        name string is already a key throws IllegalState, and both change
        nothing; otherwise the hotel is filed under its name string. */
    method AddHotel(hotel: Hotel?) returns (out: Outcome)
      requires Valid()
      modifies this
      ensures Valid()
      ensures hotel == null ==> out == Fail(IllegalArgument(HotelNull)) && hotels == old(hotels)
      ensures hotel != null && hotel.GetNameAsString() in old(hotels) ==>
        out == Fail(IllegalState(DuplicateHotel)) && hotels == old(hotels)
      ensures hotel != null && hotel.GetNameAsString() !in old(hotels) ==>
        && out == Pass
        && hotels == old(hotels)[hotel.GetNameAsString() := hotel]
        && GetHotelCount() == old(GetHotelCount()) + 1
        && GetHotel(Some(hotel.GetNameAsString())) == hotel
    {
      if hotel == null {
        return Fail(IllegalArgument(HotelNull));
      }
      var hotelName := hotel.GetNameAsString();
      if hotelName in hotels {
        return Fail(IllegalState(DuplicateHotel));
      }
      hotels := hotels[hotelName := hotel];
      return Pass;
    }

    /** `getHotel(hotelName)`: the hotel filed under that name, or null
        (also for a null name, which is never a key). */
    function GetHotel(hotelName: Option<string>): (r: Hotel?)
      reads this
      ensures r == null <==> !KnownHotel(hotelName)
      ensures r != null ==> r == hotels[hotelName.value]
      ensures r != null && Valid() ==> r.GetNameAsString() == hotelName.value
    {
      if KnownHotel(hotelName) then hotels[hotelName.value] else null
    }

    /** `getHotelCount()`. */
    function GetHotelCount(): nat
      reads this
    {
      |hotels|
    }

    /** Every hotel is filed under its own name string. `Create` establishes
        this and `addHotel`, the only writer of the map, keeps it. */
    predicate Valid()
      reads this
    {
      forall k :: k in hotels ==> hotels[k].GetNameAsString() == k
    }

    /** `hotels.containsKey(hotelName)`. */
    predicate KnownHotel(hotelName: Option<string>)
      reads this
    {
      hotelName.Some? && hotelName.value in hotels
    }

    /** The hotel exists and holds a room under `roomNumber`. */
    predicate Resolves(hotelName: Option<string>, roomNumber: Int32)
      reads this, hotels.Values
    {
      KnownHotel(hotelName) && roomNumber in hotels[hotelName.value].rooms
    }

    /** The room an operation on (`hotelName`, `roomNumber`) reaches. */
    function RoomAt(hotelName: Option<string>, roomNumber: Int32): Room
      requires Resolves(hotelName, roomNumber)
      reads this, hotels.Values
    {
      hotels[hotelName.value].rooms[roomNumber]
    }

    /** The rooms an operation on (`hotelName`, `roomNumber`) may change: that room, or none. */
    function RoomsAt(hotelName: Option<string>, roomNumber: Int32): set<Room>
      reads this, hotels.Values
    {
      if Resolves(hotelName, roomNumber) then {RoomAt(hotelName, roomNumber)} else {}
    }

    /** `canMakeReservation(...)`: throws IllegalArgument for an unknown
        hotel, then a null guest, payer or reservation, then an unknown room;
        otherwise true. It never answers false. */
    function CanMakeReservation(hotelName: Option<string>, roomNumber: Int32, guest: Option<Guest>,
                                payer: Option<ReserverPayer>, reservation: Option<Reservation>): (r: Result<bool>)
      reads this, hotels.Values
      ensures r != Ok(false)
      ensures r == Ok(true) <==> Resolves(hotelName, roomNumber) && guest.Some? && payer.Some? && reservation.Some?
      ensures !KnownHotel(hotelName) ==> r == Err(IllegalArgument(UnknownHotel))
      ensures KnownHotel(hotelName) && guest.None? ==> r == Err(IllegalArgument(GuestNull))
      ensures KnownHotel(hotelName) && guest.Some? && payer.None? ==> r == Err(IllegalArgument(PayerNull))
      ensures KnownHotel(hotelName) && guest.Some? && payer.Some? && reservation.None? ==>
        r == Err(IllegalArgument(ReservationNull))
      ensures KnownHotel(hotelName) && guest.Some? && payer.Some? && reservation.Some? && !Resolves(hotelName, roomNumber) ==>
        r == Err(IllegalArgument(UnknownRoom))
    {
      if !KnownHotel(hotelName) then Err(IllegalArgument(UnknownHotel))
      else if guest.None? then Err(IllegalArgument(GuestNull))
      else if payer.None? then Err(IllegalArgument(PayerNull))
      else if reservation.None? then Err(IllegalArgument(ReservationNull))
      else if hotels[hotelName.value].GetRoom(roomNumber) == null then Err(IllegalArgument(UnknownRoom))
      else Ok(true)
    }

    /** `canCancelReservation`, `canCheckInGuest` and `canCheckOutGuest`,
        which perform the same checks: an unknown hotel, then a null or blank
        id, then an unknown room throw IllegalArgument; otherwise true. */
    function CanUseGuestId(hotelName: Option<string>, roomNumber: Int32, guestId: Option<string>): (r: Result<bool>)
      reads this, hotels.Values
      ensures r != Ok(false)
      ensures r == Ok(true) <==> Resolves(hotelName, roomNumber) && !IsNullOrBlank(guestId)
      ensures !KnownHotel(hotelName) ==> r == Err(IllegalArgument(UnknownHotel))
      ensures KnownHotel(hotelName) && IsNullOrBlank(guestId) ==> r == Err(IllegalArgument(GuestIdMissing))
      ensures KnownHotel(hotelName) && !IsNullOrBlank(guestId) && !Resolves(hotelName, roomNumber) ==>
        r == Err(IllegalArgument(UnknownRoom))
    {
      if !KnownHotel(hotelName) then Err(IllegalArgument(UnknownHotel))
      else if guestId.None? || IsBlank(guestId.value) then Err(IllegalArgument(GuestIdMissing))
      else if hotels[hotelName.value].GetRoom(roomNumber) == null then Err(IllegalArgument(UnknownRoom))
      else Ok(true)
    }

    /** `makeReservation(...)`: when validation throws, that exception
        propagates and no room changes; otherwise the call has exactly the
        effect of the room's `addReservation`. */
    method MakeReservation(hotelName: Option<string>, roomNumber: Int32, guest: Option<Guest>,
                           payer: Option<ReserverPayer>, reservation: Option<Reservation>) returns (out: Outcome)
      modifies RoomsAt(hotelName, roomNumber)
      ensures hotels == old(hotels)
      ensures var v := old(CanMakeReservation(hotelName, roomNumber, guest, payer, reservation));
        v.Err? ==> out == Fail(v.error)
      ensures !old(CanMakeReservation(hotelName, roomNumber, guest, payer, reservation)).Ok? && Resolves(hotelName, roomNumber) ==>
        RoomAt(hotelName, roomNumber).State() == old(RoomAt(hotelName, roomNumber).State())
      ensures old(CanMakeReservation(hotelName, roomNumber, guest, payer, reservation)).Ok? ==>
        && Resolves(hotelName, roomNumber)
        && (out, RoomAt(hotelName, roomNumber).State())
          == RS.Apply(old(RoomAt(hotelName, roomNumber).State()),
                      RS.AddReservation(old(RoomAt(hotelName, roomNumber).State()), reservation, guest))
    {
      var valid := CanMakeReservation(hotelName, roomNumber, guest, payer, reservation);
      if valid.Err? {
        return Fail(valid.error);
      }
      assert valid.value;
      var hotel := GetHotel(hotelName);
      var room := hotel.GetRoom(roomNumber);
      out := room.AddReservation(reservation, guest);
    }

    /** `cancelReservation(...)`: validation, then the room's `removeReservation`. */
    method CancelReservation(hotelName: Option<string>, roomNumber: Int32, reservationId: Option<string>) returns (out: Outcome)
      modifies RoomsAt(hotelName, roomNumber)
      ensures hotels == old(hotels)
      ensures var v := old(CanUseGuestId(hotelName, roomNumber, reservationId));
        v.Err? ==> out == Fail(v.error)
      ensures !old(CanUseGuestId(hotelName, roomNumber, reservationId)).Ok? && Resolves(hotelName, roomNumber) ==>
        RoomAt(hotelName, roomNumber).State() == old(RoomAt(hotelName, roomNumber).State())
      ensures old(CanUseGuestId(hotelName, roomNumber, reservationId)).Ok? ==>
        && Resolves(hotelName, roomNumber)
        && (out, RoomAt(hotelName, roomNumber).State())
          == RS.Apply(old(RoomAt(hotelName, roomNumber).State()),
                      RS.RemoveReservation(old(RoomAt(hotelName, roomNumber).State()), reservationId))
    {
      var valid := CanUseGuestId(hotelName, roomNumber, reservationId);
      if valid.Err? {
        return Fail(valid.error);
      }
      assert valid.value;
      var hotel := GetHotel(hotelName);
      var room := hotel.GetRoom(roomNumber);
      out := room.RemoveReservation(reservationId);
    }

    /** `checkInGuest(...)`: validation, then the room's `checkInGuest`. */
    method CheckInGuest(hotelName: Option<string>, roomNumber: Int32, guestId: Option<string>) returns (out: Outcome)
      modifies RoomsAt(hotelName, roomNumber)
      ensures hotels == old(hotels)
      ensures var v := old(CanUseGuestId(hotelName, roomNumber, guestId));
        v.Err? ==> out == Fail(v.error)
      ensures !old(CanUseGuestId(hotelName, roomNumber, guestId)).Ok? && Resolves(hotelName, roomNumber) ==>
        RoomAt(hotelName, roomNumber).State() == old(RoomAt(hotelName, roomNumber).State())
      ensures old(CanUseGuestId(hotelName, roomNumber, guestId)).Ok? ==>
        && Resolves(hotelName, roomNumber)
        && (out, RoomAt(hotelName, roomNumber).State())
          == RS.Apply(old(RoomAt(hotelName, roomNumber).State()),
                      RS.CheckInGuest(old(RoomAt(hotelName, roomNumber).State()), guestId))
    {
      var valid := CanUseGuestId(hotelName, roomNumber, guestId);
      if valid.Err? {
        return Fail(valid.error);
      }
      assert valid.value;
      var hotel := GetHotel(hotelName);
      var room := hotel.GetRoom(roomNumber);
      out := room.CheckInGuest(guestId);
    }

    /** `checkOutGuest(...)`: validation, then the room's `checkOutGuest`. */
    method CheckOutGuest(hotelName: Option<string>, roomNumber: Int32, guestId: Option<string>) returns (out: Outcome)
      modifies RoomsAt(hotelName, roomNumber)
      ensures hotels == old(hotels)
      ensures var v := old(CanUseGuestId(hotelName, roomNumber, guestId));
        v.Err? ==> out == Fail(v.error)
      ensures !old(CanUseGuestId(hotelName, roomNumber, guestId)).Ok? && Resolves(hotelName, roomNumber) ==>
        RoomAt(hotelName, roomNumber).State() == old(RoomAt(hotelName, roomNumber).State())
      ensures old(CanUseGuestId(hotelName, roomNumber, guestId)).Ok? ==>
        && Resolves(hotelName, roomNumber)
        && (out, RoomAt(hotelName, roomNumber).State())
          == RS.Apply(old(RoomAt(hotelName, roomNumber).State()),
                      RS.CheckOutGuest(old(RoomAt(hotelName, roomNumber).State()), guestId))
    {
      var valid := CanUseGuestId(hotelName, roomNumber, guestId);
      if valid.Err? {
        return Fail(valid.error);
      }
      assert valid.value;
      var hotel := GetHotel(hotelName);
      var room := hotel.GetRoom(roomNumber);
      out := room.CheckOutGuest(guestId);
    }
  }

  /** A reservation made through the chain and then cancelled under the
      guest's full name leaves the room exactly as it was, as when a
      reservation for John Doe in room 101 is made and cancelled. */
  method MakeThenCancel(chain: HotelChain, hotelName: string, roomNumber: Int32, guest: Guest,
                        payer: ReserverPayer, reservation: Reservation) returns (made: Outcome, cancelled: Outcome)
    requires chain.Resolves(Some(hotelName), roomNumber)
    requires ValidGuest(guest)
    requires !chain.RoomAt(Some(hotelName), roomNumber).IsOccupied()
    requires NameAsString(guest) !in chain.RoomAt(Some(hotelName), roomNumber).reservations
    modifies chain.RoomsAt(Some(hotelName), roomNumber)
    ensures made == Pass && cancelled == Pass
    ensures chain.RoomAt(Some(hotelName), roomNumber).State() == old(chain.RoomAt(Some(hotelName), roomNumber).State())
  {
    ghost var before := chain.RoomAt(Some(hotelName), roomNumber).State();
    RS.AddThenRemoveRestores(before, reservation, guest);
    GuestKeyNotBlank(guest);
    made := chain.MakeReservation(Some(hotelName), roomNumber, Some(guest), Some(payer), Some(reservation));
    cancelled := chain.CancelReservation(Some(hotelName), roomNumber, Some(NameAsString(guest)));
  }
}
