/** `domain.Hotel`: a named hotel holding its rooms by room number. The map
    holds references: the same `Room` object may also be held by a caller, or
    under two numbers, since `addRoom` never compares the key with the room. */
module Hotels {
  import opened Common
  import opened Names
  import opened Guests
  import opened Reservations
  import RS = RoomStates
  import opened Rooms

  class Hotel {
    const name: Name
    var rooms: map<Int32, Room>

    /** The field assignments of `Hotel(Name)`, reached once `Create`'s check has passed. */
    constructor (name: Name)
      ensures this.name == name && rooms == map[]
    {
      this.name := name;
      this.rooms := map[];
    }

    /** `new Hotel(name)`: a null name throws IllegalArgument; otherwise a fresh hotel without rooms. */
    static method Create(name: Option<Name>) returns (r: Result<Hotel>)
      ensures name.None? ==> r == Err(IllegalArgument(HotelNameNull))
      ensures name.Some? ==> r.Ok? && fresh(r.value) && r.value.name == name.value && r.value.GetRoomCount() == 0
    {
      if name.None? {
        return Err(IllegalArgument(HotelNameNull));
      }
      var hotel := new Hotel(name.value);
      return Ok(hotel);
    }

    /** `getNameAsString()`: the key a chain files this hotel under. */
    function GetNameAsString(): string {
      FullName(name)
    }

    /** `addRoom(roomNumber, room)`: a null room or a number already present
        throws IllegalArgument and changes nothing; otherwise exactly one
        entry, under the given number, is added. */
    method AddRoom(roomNumber: Int32, room: Room?) returns (out: Outcome)
      modifies this
      ensures room == null ==> out == Fail(IllegalArgument(RoomNull)) && rooms == old(rooms)
      ensures room != null && roomNumber in old(rooms) ==>
        out == Fail(IllegalArgument(DuplicateRoom)) && rooms == old(rooms)
      ensures room != null && roomNumber !in old(rooms) ==>
        && out == Pass
        && rooms == old(rooms)[roomNumber := room]
        && GetRoomCount() == old(GetRoomCount()) + 1
    {
      if room == null {
        return Fail(IllegalArgument(RoomNull));
      }
      if roomNumber in rooms {
        return Fail(IllegalArgument(DuplicateRoom));
      }
      rooms := rooms[roomNumber := room];
      return Pass;
    }

    /** `getRoom(roomNumber)`: the stored room, or null for an unknown number. */
    function GetRoom(roomNumber: Int32): (r: Room?)
      reads this
      ensures r == null <==> roomNumber !in rooms
      ensures r != null ==> r == rooms[roomNumber]
    {
      if roomNumber in rooms then rooms[roomNumber] else null
    }

    /** `getRoomCount()`. */
    function GetRoomCount(): nat
      reads this
    {
      |rooms|
    }

    /** The room a call on `roomNumber` may change: that room, or nothing. */
    function RoomsAt(roomNumber: Int32): set<Room>
      reads this
    {
      if roomNumber in rooms then {rooms[roomNumber]} else {}
    }

    /** `createReservation(roomNumber, guest, reservation)`: a null guest, a
        null reservation or an unknown room throws IllegalArgument before
        anything changes; otherwise the call has exactly the effect of the
        room's `addReservation`, and no other room changes. */
    method CreateReservation(roomNumber: Int32, guest: Option<Guest>, reservation: Option<Reservation>) returns (out: Outcome)
      modifies RoomsAt(roomNumber)
      ensures guest.None? ==> out == Fail(IllegalArgument(GuestNull))
      ensures guest.Some? && reservation.None? ==> out == Fail(IllegalArgument(ReservationNull))
      ensures guest.Some? && reservation.Some? && roomNumber !in rooms ==> out == Fail(IllegalArgument(UnknownRoom))
      ensures roomNumber in rooms && (guest.None? || reservation.None?) ==>
        rooms[roomNumber].State() == old(rooms[roomNumber].State())
      ensures guest.Some? && reservation.Some? && roomNumber in rooms ==>
        (out, rooms[roomNumber].State())
          == RS.Apply(old(rooms[roomNumber].State()), RS.AddReservation(old(rooms[roomNumber].State()), reservation, guest))
    {
      if guest.None? {
        return Fail(IllegalArgument(GuestNull));
      }
      if reservation.None? {
        return Fail(IllegalArgument(ReservationNull));
      }
      var room := GetRoom(roomNumber);
      if room == null {
        return Fail(IllegalArgument(UnknownRoom));
      }
      out := room.AddReservation(reservation, guest);
    }

    /** The numbers among `keys` whose rooms are available. */
    ghost function AvailableAmong(keys: set<Int32>): set<Int32>
      reads this, rooms.Values
    {
      set k | k in keys && k in rooms && rooms[k].IsAvailable()
    }

    /** The numbers of the available rooms. */
    ghost function AvailableRooms(): set<Int32>
      reads this, rooms.Values
    {
      AvailableAmong(rooms.Keys)
    }

    /** `isAvailable(roomNumber)`: an unknown number throws IllegalArgument;
        otherwise the answer is whether that room is available. */
    function IsAvailable(roomNumber: Int32): (r: Result<bool>)
      reads this, rooms.Values
      ensures r.Err? <==> roomNumber !in rooms
      ensures r.Err? ==> r.error == IllegalArgument(UnknownRoom)
      ensures r.Ok? ==> (r.value <==> roomNumber in AvailableRooms())
      ensures r.Ok? ==> r.value == RS.IsAvailable(rooms[roomNumber].State())
    {
      var room := GetRoom(roomNumber);
      if room == null then Err(IllegalArgument(UnknownRoom)) else Ok(room.IsAvailable())
    }

    /** `getAvailableRoomCount()`: counts, entry by entry, the rooms that are available. */
    method GetAvailableRoomCount() returns (count: int)
      ensures count == |AvailableRooms()|
      ensures 0 <= count <= GetRoomCount()
    {
      count := 0;
      var unseen := rooms.Keys;
      while unseen != {}
        invariant unseen <= rooms.Keys
        invariant count == |AvailableAmong(rooms.Keys - unseen)|
        decreases |unseen|
      {
        var k :| k in unseen;
        CountStep(rooms.Keys - unseen, k);
        if rooms[k].IsAvailable() {
          count := count + 1;
        }
        assert rooms.Keys - (unseen - {k}) == (rooms.Keys - unseen) + {k};
        unseen := unseen - {k};
      }
      assert rooms.Keys - unseen == rooms.Keys;
      SubsetNoLarger(AvailableRooms(), rooms.Keys);
    }

    /** Looking at one more room adds one to the count exactly when that room is available. */
    lemma CountStep(seen: set<Int32>, k: Int32)
      requires k in rooms && k !in seen
      ensures |AvailableAmong(seen + {k})| == |AvailableAmong(seen)| + (if rooms[k].IsAvailable() then 1 else 0)
    {
      if rooms[k].IsAvailable() {
        assert AvailableAmong(seen + {k}) == AvailableAmong(seen) + {k};
      } else {
        assert AvailableAmong(seen + {k}) == AvailableAmong(seen);
      }
    }
  }

  lemma SubsetNoLarger<T>(a: set<T>, b: set<T>)
    requires a <= b
    ensures |a| <= |b|
  {
    assert b == a + (b - a);
  }
}
