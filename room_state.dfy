/** The state machine of `domain.Room` on values: each operation either
    throws, leaving the room as it was, or yields the room's next state. */
module RoomStates {
  import opened Common
  import opened JavaStrings
  import opened Names
  import opened Addresses
  import opened Guests
  import opened Reservations
  import opened Quantities

  /** The mutable part of a room: the occupant, the checked-in marker, and the
      reservations keyed by the guest's full name (case-sensitive). */
  datatype RoomState = RoomState(
    occupant: Option<Guest>,
    checkedInGuestId: Option<string>,
    reservations: map<string, Reservation>)

  /** A newly constructed room. */
  const Empty: RoomState := RoomState(None, None, map[])

  /** `isOccupied()`. */
  predicate IsOccupied(s: RoomState) {
    s.occupant.Some?
  }

  /** `isAvailable()`. */
  predicate IsAvailable(s: RoomState) {
    !IsOccupied(s) && |s.reservations| == 0
  }

  /** `getReservationCount()`. */
  function ReservationCount(s: RoomState): nat {
    |s.reservations|
  }

  /** What a call leaves behind: a failed check throws before any field is
      written, so the room keeps its old state. */
  function Apply(s: RoomState, step: Result<RoomState>): (Outcome, RoomState) {
    match step
    case Ok(t) => (Pass, t)
    case Err(e) => (Fail(e), s)
  }

  /** `addReservation(reservation, guest)`. */
  function AddReservation(s: RoomState, reservation: Option<Reservation>, guest: Option<Guest>): (r: Result<RoomState>)
    ensures r.Ok? <==> reservation.Some? && guest.Some? && !IsOccupied(s)
    ensures r.Err? ==> (r.error.IllegalState? <==> reservation.Some? && guest.Some?)
    ensures r.Ok? ==>
      var key := NameAsString(guest.value);
      && key in r.value.reservations && r.value.reservations[key] == reservation.value
      && r.value.reservations.Keys == s.reservations.Keys + {key}
      && r.value.occupant == s.occupant && r.value.checkedInGuestId == s.checkedInGuestId
  {
    if reservation.None? then Err(IllegalArgument(ReservationNull))
    else if guest.None? then Err(IllegalArgument(GuestNull))
    else if IsOccupied(s) then Err(IllegalState(RoomOccupied))
    else Ok(s.(reservations := s.reservations[NameAsString(guest.value) := reservation.value]))
  }

  /** `removeReservation(guestId)`. */
  function RemoveReservation(s: RoomState, guestId: Option<string>): (r: Result<RoomState>)
    ensures r.Ok? <==> !IsNullOrBlank(guestId) && guestId.value in s.reservations
    ensures r.Err? ==> r.error.IllegalArgument?
    ensures r.Ok? ==>
      && r.value.reservations.Keys == s.reservations.Keys - {guestId.value}
      && r.value.reservations.Values <= s.reservations.Values
      && r.value.occupant == s.occupant && r.value.checkedInGuestId == s.checkedInGuestId
  {
    if IsNullOrBlank(guestId) then Err(IllegalArgument(GuestIdMissing))
    else if guestId.value !in s.reservations then Err(IllegalArgument(NoReservation))
    else Ok(s.(reservations := s.reservations - {guestId.value}))
  }

  /** `checkInGuest(guestId)`: records the marker only. */
  function CheckInGuest(s: RoomState, guestId: Option<string>): (r: Result<RoomState>)
    ensures r.Ok? <==> !IsNullOrBlank(guestId) && !IsOccupied(s) && guestId.value in s.reservations
    ensures r.Err? ==> (r.error.IllegalArgument? <==> IsNullOrBlank(guestId))
    ensures r.Ok? ==>
      && r.value.checkedInGuestId == guestId && r.value.checkedInGuestId.value in r.value.reservations
      && r.value.occupant == s.occupant && r.value.reservations == s.reservations
  {
    if IsNullOrBlank(guestId) then Err(IllegalArgument(GuestIdMissing))
    else if IsOccupied(s) then Err(IllegalState(RoomOccupied))
    else if guestId.value !in s.reservations then Err(IllegalState(NoReservation))
    else Ok(s.(checkedInGuestId := guestId))
  }

  /** `setOccupant(guest)`. */
  function SetOccupant(s: RoomState, guest: Option<Guest>): (r: Result<RoomState>)
    ensures r.Ok? <==> guest.Some? && !IsOccupied(s)
    ensures r.Err? ==> (r.error.IllegalState? <==> guest.Some?)
    ensures r.Ok? ==>
      && IsOccupied(r.value) && r.value.occupant == guest
      && r.value.reservations == s.reservations && r.value.checkedInGuestId == s.checkedInGuestId
  {
    if guest.None? then Err(IllegalArgument(GuestNull))
    else if IsOccupied(s) then Err(IllegalState(RoomOccupied))
    else Ok(s.(occupant := guest))
  }

  /** `checkOutGuest(guestId)`. */
  function CheckOutGuest(s: RoomState, guestId: Option<string>): (r: Result<RoomState>)
    ensures r.Ok? <==> !IsNullOrBlank(guestId) && IsOccupied(s) && NameAsString(s.occupant.value) == guestId.value
    ensures r.Err? ==> (r.error.IllegalArgument? <==> IsNullOrBlank(guestId))
    ensures r.Ok? ==>
      && !IsOccupied(r.value) && r.value.checkedInGuestId.None?
      && r.value.reservations.Keys == s.reservations.Keys - {guestId.value}
      && r.value.reservations.Values <= s.reservations.Values
  {
    if IsNullOrBlank(guestId) then Err(IllegalArgument(GuestIdMissing))
    else if !IsOccupied(s) then Err(IllegalState(NoOccupant))
    else if NameAsString(s.occupant.value) != guestId.value then Err(IllegalState(GuestIdMismatch))
    else Ok(RoomState(None, None, if guestId.value in s.reservations then s.reservations - {guestId.value} else s.reservations))
  }

  // ---------------------------------------------------------------------
  // Properties of the state machine

  /** A new room has no occupant, no marker and no reservations, so it is available. */
  lemma EmptyRoomIsAvailable()
    ensures !IsOccupied(Empty) && Empty.checkedInGuestId.None? && ReservationCount(Empty) == 0
    ensures IsAvailable(Empty)
    ensures Inv(Empty)
  {
  }

  /** Available means exactly: nobody in the room and nothing booked. */
  lemma AvailableIffUnoccupiedAndUnbooked(s: RoomState)
    ensures IsAvailable(s) <==> s.occupant.None? && s.reservations == map[]
    ensures IsAvailable(s) ==> !IsOccupied(s) && ReservationCount(s) == 0
  {
  }

  /** `addReservation`: the null checks, then the occupied check; on success
      the guest's full name maps to the reservation (replacing any earlier
      one under that name), nothing else changes, the count grows by one only
      for a new name, and the room is no longer available. */
  lemma AddReservationEffect(s: RoomState, reservation: Option<Reservation>, guest: Option<Guest>)
    ensures reservation.None? ==> Apply(s, AddReservation(s, reservation, guest)) == (Fail(IllegalArgument(ReservationNull)), s)
    ensures reservation.Some? && guest.None? ==> Apply(s, AddReservation(s, reservation, guest)) == (Fail(IllegalArgument(GuestNull)), s)
    ensures reservation.Some? && guest.Some? && IsOccupied(s) ==>
      Apply(s, AddReservation(s, reservation, guest)) == (Fail(IllegalState(RoomOccupied)), s)
    ensures reservation.Some? && guest.Some? && !IsOccupied(s) ==>
      var key := NameAsString(guest.value);
      var (out, t) := Apply(s, AddReservation(s, reservation, guest));
      && out == Pass
      && key in t.reservations && t.reservations[key] == reservation.value
      && (forall k :: k != key ==> (k in t.reservations <==> k in s.reservations))
      && (forall k :: k != key && k in s.reservations ==> t.reservations[k] == s.reservations[k])
      && t.occupant == s.occupant && t.checkedInGuestId == s.checkedInGuestId
      && ReservationCount(t) == ReservationCount(s) + (if key in s.reservations then 0 else 1)
      && !IsAvailable(t)
  {
  }

  /** `removeReservation`: a null or blank id, then an absent id, throw
      IllegalArgument; otherwise exactly that entry goes and the count drops by one. */
  lemma RemoveReservationEffect(s: RoomState, guestId: Option<string>)
    ensures IsNullOrBlank(guestId) ==> Apply(s, RemoveReservation(s, guestId)) == (Fail(IllegalArgument(GuestIdMissing)), s)
    ensures !IsNullOrBlank(guestId) && guestId.value !in s.reservations ==>
      Apply(s, RemoveReservation(s, guestId)) == (Fail(IllegalArgument(NoReservation)), s)
    ensures !IsNullOrBlank(guestId) && guestId.value in s.reservations ==>
      var (out, t) := Apply(s, RemoveReservation(s, guestId));
      && out == Pass
      && guestId.value !in t.reservations
      && (forall k :: k != guestId.value ==> (k in t.reservations <==> k in s.reservations))
      && (forall k :: k in t.reservations ==> t.reservations[k] == s.reservations[k])
      && t.occupant == s.occupant && t.checkedInGuestId == s.checkedInGuestId
      && ReservationCount(t) == ReservationCount(s) - 1
  {
  }

  /** Adding a reservation under a name the room did not hold, then removing
      it by the guest's full name, gives back exactly the room it started from. */
  lemma {:induction false} AddThenRemoveRestores(s: RoomState, reservation: Reservation, guest: Guest)
    requires ValidGuest(guest)
    requires !IsOccupied(s) && NameAsString(guest) !in s.reservations
    ensures AddReservation(s, Some(reservation), Some(guest)).Ok?
    ensures RemoveReservation(AddReservation(s, Some(reservation), Some(guest)).value, Some(NameAsString(guest))) == Ok(s)
  {
    GuestKeyNotBlank(guest);
    var key := NameAsString(guest);
    var t := AddReservation(s, Some(reservation), Some(guest)).value;
    assert t.reservations - {key} == s.reservations;
  }

  /** `checkInGuest`: blank id (IllegalArgument), then occupied room, then
      missing reservation (both IllegalState); on success only the marker changes. */
  lemma CheckInGuestEffect(s: RoomState, guestId: Option<string>)
    ensures IsNullOrBlank(guestId) ==> Apply(s, CheckInGuest(s, guestId)) == (Fail(IllegalArgument(GuestIdMissing)), s)
    ensures !IsNullOrBlank(guestId) && IsOccupied(s) ==> Apply(s, CheckInGuest(s, guestId)) == (Fail(IllegalState(RoomOccupied)), s)
    ensures !IsNullOrBlank(guestId) && !IsOccupied(s) && guestId.value !in s.reservations ==>
      Apply(s, CheckInGuest(s, guestId)) == (Fail(IllegalState(NoReservation)), s)
    ensures CheckInGuest(s, guestId).Ok? <==> !IsNullOrBlank(guestId) && !IsOccupied(s) && guestId.value in s.reservations
    ensures CheckInGuest(s, guestId).Ok? ==>
      var t := CheckInGuest(s, guestId).value;
      && t.checkedInGuestId == guestId
      && t.occupant == s.occupant && t.reservations == s.reservations
      && !IsOccupied(t)
  {
  }

  /** `setOccupant`: an occupied room throws IllegalState and keeps its
      occupant; otherwise the guest moves in and the reservations and marker stay. */
  lemma SetOccupantEffect(s: RoomState, guest: Option<Guest>)
    ensures guest.None? ==> Apply(s, SetOccupant(s, guest)) == (Fail(IllegalArgument(GuestNull)), s)
    ensures guest.Some? && IsOccupied(s) ==> Apply(s, SetOccupant(s, guest)) == (Fail(IllegalState(RoomOccupied)), s)
    ensures IsOccupied(s) ==> Apply(s, SetOccupant(s, guest)).1.occupant == s.occupant
    ensures guest.Some? && !IsOccupied(s) ==>
      var (out, t) := Apply(s, SetOccupant(s, guest));
      && out == Pass
      && t.occupant == guest && IsOccupied(t) && !IsAvailable(t)
      && t.reservations == s.reservations && t.checkedInGuestId == s.checkedInGuestId
  {
  }

  /** `checkOutGuest`: a blank id throws IllegalArgument; an empty room, or an
      id that is not exactly the occupant's full name, throws IllegalState and
      leaves the occupant in place; otherwise occupant and marker are cleared
      and only that id's reservation, if any, is dropped. */
  lemma CheckOutGuestEffect(s: RoomState, guestId: Option<string>)
    ensures IsNullOrBlank(guestId) ==> Apply(s, CheckOutGuest(s, guestId)) == (Fail(IllegalArgument(GuestIdMissing)), s)
    ensures !IsNullOrBlank(guestId) && !IsOccupied(s) ==> Apply(s, CheckOutGuest(s, guestId)) == (Fail(IllegalState(NoOccupant)), s)
    ensures !IsNullOrBlank(guestId) && IsOccupied(s) && guestId.value != NameAsString(s.occupant.value) ==>
      Apply(s, CheckOutGuest(s, guestId)) == (Fail(IllegalState(GuestIdMismatch)), s)
    ensures CheckOutGuest(s, guestId).Ok? <==>
      !IsNullOrBlank(guestId) && IsOccupied(s) && guestId.value == NameAsString(s.occupant.value)
    ensures CheckOutGuest(s, guestId).Ok? ==>
      var t := CheckOutGuest(s, guestId).value;
      && !IsOccupied(t) && t.checkedInGuestId.None?
      && t.reservations == s.reservations - {guestId.value}
      && ReservationCount(t) == ReservationCount(s) - (if guestId.value in s.reservations then 1 else 0)
      && (IsAvailable(t) <==> s.reservations.Keys <= {guestId.value})
  {
  }

  /** Check-out is case-sensitive even though guest equality is not: the
      occupant "Ahmed Khan" cannot be checked out as "ahmed khan". */
  lemma CheckOutIsCaseSensitive(s: RoomState, a: Address)
    requires s.occupant == Some(Guest(Name("Ahmed", "Khan"), a))
    ensures CheckOutGuest(s, Some("ahmed khan")) == Err(IllegalState(GuestIdMismatch))
  {
  }

  /** The walk-through of a single room: reserve, check in, move in, check
      out, after which the room is empty and available again. */
  lemma ReserveOccupyCheckOut(r: Reservation, a: Address)
    ensures var g := Guest(Name("Ahmed", "Khan"), a);
      var s1 := AddReservation(Empty, Some(r), Some(g));
      && s1.Ok? && ReservationCount(s1.value) == 1 && !IsAvailable(s1.value)
      && var s2 := CheckInGuest(s1.value, Some("Ahmed Khan"));
      && s2.Ok? && s2.value.checkedInGuestId == Some("Ahmed Khan") && !IsOccupied(s2.value)
      && var s3 := SetOccupant(s2.value, Some(g));
      && s3.Ok? && IsOccupied(s3.value)
      && var s4 := CheckOutGuest(s3.value, Some("Ahmed Khan"));
      && s4.Ok? && s4.value == Empty && IsAvailable(s4.value)
  {
    var g := Guest(Name("Ahmed", "Khan"), a);
    assert NameAsString(g) == "Ahmed Khan";
    TrimmedTextTrimsToItself("Ahmed Khan");
    var s1 := RoomState(None, None, map["Ahmed Khan" := r]);
    assert AddReservation(Empty, Some(r), Some(g)) == Ok(s1);
    var s2 := RoomState(None, Some("Ahmed Khan"), s1.reservations);
    assert CheckInGuest(s1, Some("Ahmed Khan")) == Ok(s2);
    var s3 := RoomState(Some(g), Some("Ahmed Khan"), s1.reservations);
    assert SetOccupant(s2, Some(g)) == Ok(s3);
    assert s1.reservations - {"Ahmed Khan"} == map[];
    assert CheckOutGuest(s3, Some("Ahmed Khan")) == Ok(Empty);
  }

  /** Moving the guest in before checking in, the other order, makes the
      check-in throw IllegalState: the room is already occupied. */
  lemma OccupyBeforeCheckInFails(s: RoomState, g: Guest)
    requires ValidGuest(g) && !IsOccupied(s) && NameAsString(g) in s.reservations
    ensures SetOccupant(s, Some(g)).Ok?
    ensures CheckInGuest(SetOccupant(s, Some(g)).value, Some(NameAsString(g))) == Err(IllegalState(RoomOccupied))
  {
  }

  // ---------------------------------------------------------------------
  // An invariant of every reachable room

  /** Every stored key, the marker and the occupant come from constructed
      guests, so every key and the marker are non-blank. */
  predicate Inv(s: RoomState) {
    && (s.occupant.Some? ==> ValidGuest(s.occupant.value))
    && (s.checkedInGuestId.Some? ==> !IsBlank(s.checkedInGuestId.value))
    && (forall k :: k in s.reservations ==> !IsBlank(k))
  }

  /** Every operation, given constructed guests, keeps the invariant, whether it succeeds or throws. */
  lemma OperationsPreserveInv(s: RoomState, reservation: Option<Reservation>, guest: Option<Guest>, guestId: Option<string>)
    requires Inv(s)
    requires guest.Some? ==> ValidGuest(guest.value)
    ensures Inv(Apply(s, AddReservation(s, reservation, guest)).1)
    ensures Inv(Apply(s, RemoveReservation(s, guestId)).1)
    ensures Inv(Apply(s, CheckInGuest(s, guestId)).1)
    ensures Inv(Apply(s, SetOccupant(s, guest)).1)
    ensures Inv(Apply(s, CheckOutGuest(s, guestId)).1)
  {
    AddKeepsInv(s, reservation, guest);
    RemoveKeepsInv(s, guestId);
    CheckInKeepsInv(s, guestId);
    CheckOutKeepsInv(s, guestId);
  }

  lemma AddKeepsInv(s: RoomState, reservation: Option<Reservation>, guest: Option<Guest>)
    requires Inv(s)
    requires guest.Some? ==> ValidGuest(guest.value)
    ensures Inv(Apply(s, AddReservation(s, reservation, guest)).1)
  {
  }

  lemma RemoveKeepsInv(s: RoomState, guestId: Option<string>)
    requires Inv(s)
    ensures Inv(Apply(s, RemoveReservation(s, guestId)).1)
  {
  }

  lemma CheckInKeepsInv(s: RoomState, guestId: Option<string>)
    requires Inv(s)
    ensures Inv(Apply(s, CheckInGuest(s, guestId)).1)
  {
  }

  lemma CheckOutKeepsInv(s: RoomState, guestId: Option<string>)
    requires Inv(s)
    ensures Inv(Apply(s, CheckOutGuest(s, guestId)).1)
  {
  }

  /** In a reachable room every stored reservation can be cancelled by its key. */
  lemma EveryKeyCancellable(s: RoomState, key: string)
    requires Inv(s) && key in s.reservations
    ensures RemoveReservation(s, Some(key)).Ok?
  {
  }
}
