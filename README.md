# Hotel reservation domain, modelled in Dafny

This project models the domain layer of a small hotel reservation system:
a **hotel chain** files **hotels** by name, a hotel files **rooms** by room
number, and a room holds **reservations** keyed by the guest's full name,
plus the guest who occupies it. The chain is the entry point for making and
cancelling reservations and for checking guests in and out. Each of these
calls first runs a validator. The validator checks that the hotel exists, that
the arguments are present and that the room exists. It then passes the call
to the room, which applies its own state rules:

- no new reservation while the room is occupied;
- check-in needs a reservation under that id;
- check-out needs the occupant's exact full name.

Around these stand immutable value objects. `Name`, `Address`,
`Identity` and `CreditCard` reject null or blank parts and store them
trimmed. `Guest` needs a name and an address. `HowMany` is a positive
count. `Reservation` needs two dates, the end after the start, and a
guest count.

How the Java is expressed:

- Java `null` is `Option` for values and a nullable reference (`Room?`,
  `Hotel?`) for objects.
- A thrown exception is an `Error`: `IllegalArgument` or `IllegalState`,
  tagged with the check that threw.
- Constructors that validate return `Result`.
- `void` calls return `Outcome`.
- `Room`, `Hotel` and `HotelChain` are classes whose methods update
  their fields in place.
- `Room`'s rules are also given as a state machine on values, in module
  `RoomStates`. Every `Room` method is proved to have exactly the effect of
  the matching transition. A failed check leaves the room unchanged.
- Java `int` is `Int32`, and its wrap-around is written out where the
  source computes with it: `hashCode` and the night count.
- `String.trim`, `equalsIgnoreCase`, `toLowerCase`, `hashCode` and
  `String.valueOf(int)` are modelled in `JavaStrings`, with two
  simplifications. A string here is a sequence of Unicode scalar values,
  not of UTF-16 code units, so lengths, substrings and string hashes agree
  with Java only for text without characters beyond U+FFFF. Case mapping
  covers ASCII letters only (see "Left out").

The order of calls in a check-in matters. `checkInGuest` validates the
reservation and records the checked-in id. `setOccupant` then moves the
guest in. This is the order the demonstration program uses. Calling
`setOccupant` first makes `checkInGuest` throw IllegalState because the room
is already occupied (`RoomStates.OccupyBeforeCheckInFails`). The chain's
check-in and check-out tests use that other order.

## Model

| member | source | states |
|---|---|---|
| Common.Wrap32 | src/main/java/domain/Reservation.java:93-95 | the `(int)` narrowing of a `long`: congruent to its argument modulo 2^32 and the identity on values that fit in an `int` |
| JavaStrings.Trim | src/main/java/domain/Name.java:23-32 | `String.trim()`: the infix left after stripping characters up to U+0020 from both ends; neither end of the result is such a character; empty exactly when every character is one |
| JavaStrings.TrimmedTextIsFixed | src/main/java/domain/Name.java:23-32 | trimming a non-blank string gives non-blank trimmed text, and trimming again changes nothing |
| JavaStrings.TrimmedTextTrimsToItself | src/main/java/domain/Address.java:27-45 | a string stored by a trimming constructor trims to itself and is not blank |
| JavaStrings.BlankIffAllTrimSpace | src/main/java/domain/HotelChain.java:28 | `s.trim().isEmpty()` holds exactly when every character of `s` is trimmable |
| JavaStrings.Lower | src/main/java/domain/Name.java:94-96 | `toLowerCase()` keeps the length and maps each character |
| JavaStrings.EqualsIgnoreCaseIffLowerEqual | src/main/java/domain/Name.java:79-86 | `equalsIgnoreCase`, compared character by character through upper and lower case, holds exactly when the lower-cased strings are equal |
| JavaStrings.CharEqualsIgnoreCaseIffLower | src/main/java/domain/Name.java:79-86 | the per-character case-insensitive match holds exactly when both characters lower-case to the same one |
| JavaStrings.EqualsIgnoreCaseIsEquivalence | src/main/java/domain/Name.java:79-86 | `equalsIgnoreCase` is reflexive, symmetric and transitive |
| JavaStrings.DecimalRoundTrip | src/main/java/domain/HowMany.java:43-45 | the decimal text of a natural number is non-empty, all digits, has no leading zero, and reads back as the number |
| Names.NewName | src/main/java/domain/Name.java:23-32 | construction succeeds exactly when neither part is null or blank; the first name is checked first; the stored parts are the trimmed arguments |
| Names.FullNameIsTrimmed | src/main/java/domain/Name.java:57-59 | the full name of a constructed name is non-blank trimmed text: the first name, one space, the last name |
| Names.FullNameCanCollide | src/main/java/domain/Name.java:57-59 | two different valid names ("Mary Ann" "Lee" and "Mary" "Ann Lee") have the same full name, so the full name does not identify a name |
| Names.NameEqualsIsEquivalence | src/main/java/domain/Name.java:79-86 | name equality (both parts ignoring case) is an equivalence relation |
| Names.EqualNamesHashEqually | src/main/java/domain/Name.java:94-96 | equal names have equal hash codes |
| Addresses.NewAddress | src/main/java/domain/Address.java:27-45 | succeeds exactly when no field is null or blank; street, city, country, postal code are checked in that order; the fields are stored trimmed |
| Addresses.CompleteAddressLayout | src/main/java/domain/Address.java:94-96 | the complete address of a valid address starts with the street, ends with the postal code, is as long as the four fields plus five separator characters, and is trimmed text |
| Addresses.AddressEqualsIsEquivalence | src/main/java/domain/Address.java:115-124 | address equality (all four fields ignoring case) is an equivalence relation |
| Addresses.EqualAddressesHashEqually | src/main/java/domain/Address.java:132-137 | equal addresses have equal hash codes |
| Guests.NewGuest | src/main/java/domain/Guest.java:23-32 | succeeds exactly when name and address are present, rejecting a null name first; stores both |
| Guests.GuestKeyNotBlank | src/main/java/domain/Guest.java:57-59 | the name string a room files a constructed guest under is non-blank trimmed text |
| Guests.GuestEqualsIsEquivalence | src/main/java/domain/Guest.java:79-85 | guest equality (names ignoring case) is an equivalence relation |
| Guests.GuestEqualityIgnoresAddress | src/main/java/domain/Guest.java:79-95 | two guests with the same name and different addresses are equal and hash alike |
| Guests.EqualGuestsHashEqually | src/main/java/domain/Guest.java:93-95 | equal guests have equal hash codes |
| Guests.EqualGuestsMayHaveDifferentKeys | src/main/java/domain/Guest.java:57-85 | "Ahmed Khan" and "ahmed khan" are equal guests yet are filed under different reservation keys |
| Quantities.NewHowMany | src/main/java/domain/HowMany.java:21-26 | succeeds exactly when the number is positive, keeping it unchanged |
| Quantities.HowManyEqualsIsValueEquality | src/main/java/domain/HowMany.java:54-70 | `equals` is equality of the counts, and equal counts hash alike |
| Quantities.HowManyToStringReadsBack | src/main/java/domain/HowMany.java:43-45 | a constructed count prints as digits only, without sign or leading zero, and reads back as the count |
| Identities.NewIdentity | src/main/java/domain/Identity.java:24-33 | succeeds exactly when neither number nor type is null or blank, number checked first; stores both trimmed |
| Identities.IdentityToStringReadsBack | src/main/java/domain/Identity.java:59-61 | when neither type contains a colon, the text `type: number` determines the identity: equal texts mean equal type and number |
| Identities.FirstColonEndsType | src/main/java/domain/Identity.java:59-61 | in the text of an identity with a colon-free type, the first colon comes right after the type |
| Identities.IdentityEqualsIsEquivalence | src/main/java/domain/Identity.java:70-76 | identity equality (number exactly, type ignoring case) is an equivalence relation |
| Identities.EqualIdentitiesHashEqually | src/main/java/domain/Identity.java:84-86 | equal identities have equal hash codes |
| CreditCards.NewCreditCard | src/main/java/domain/CreditCard.java:25-39 | succeeds exactly when number, holder and expiry are all non-blank, checked in that order; stores them trimmed |
| CreditCards.MaskedNumber | src/main/java/domain/CreditCard.java:47-52 | four stars, followed by the last four characters of the number when it has at least four, and by nothing otherwise |
| CreditCards.CardToString | src/main/java/domain/CreditCard.java:87-89 | the masked number, " (", the holder, ")" |
| CreditCards.CardToStringHidesNumber | src/main/java/domain/CreditCard.java:47-52 | two cards with the same holder and the same last four digits print alike, whatever the rest of their numbers |
| CreditCards.CardEqualsIsEquivalence | src/main/java/domain/CreditCard.java:98-106 | card equality (number and expiry exactly, holder ignoring case) is an equivalence relation |
| CreditCards.EqualCardsHashEqually | src/main/java/domain/CreditCard.java:114-116 | equal cards have equal hash codes |
| Reservations.NewReservation | src/main/java/domain/Reservation.java:31-50 | rejects a null start, end or guest count in that order, then an end not after the start; otherwise stores them, leaving the reservation date null |
| Reservations.NumberOfNights | src/main/java/domain/Reservation.java:93-95 | the `int` count is congruent to the intended night count modulo 2^32, and equals it for a non-negative count below 2^31 |
| Reservations.IsActive | src/main/java/domain/Reservation.java:102-105 | active exactly on the days from the start day up to, not including, the night after the last, so an active reservation has at least one night |
| Reservations.Nights | src/main/java/domain/Reservation.java:93-95 | the intended night count: the start plus it is the end, and it is at least one for a valid reservation |
| Reservations.NumberOfNightsWithinRange | src/main/java/domain/Reservation.java:93-95 | for stays shorter than 2^31 days the source's `int` count equals the intended count and is positive |
| Reservations.NumberOfNightsOverflows | src/main/java/domain/Reservation.java:93-95 | a valid stay of 2^31 days has a night count of -2^31 as written |
| Reservations.ActiveOnEachNight | src/main/java/domain/Reservation.java:102-105 | a reservation is active on a day exactly when the day is in [start, end), and on as many days as it has nights |
| Reservations.RangeSize | src/main/java/domain/Reservation.java:93-105 | the days from `a` up to `b` number `b - a` |
| RoomStates.EmptyRoomIsAvailable | src/main/java/domain/Room.java:35-47 | a new room has no occupant, no checked-in id and no reservations, so it is available, and it satisfies the room invariant `Inv` |
| RoomStates.AvailableIffUnoccupiedAndUnbooked | src/main/java/domain/Room.java:81-92 | available exactly when nobody occupies the room and it holds no reservation |
| RoomStates.AddReservation | src/main/java/domain/Room.java:112-127 | succeeds exactly when reservation and guest are present and the room is unoccupied; a null argument is IllegalArgument and an occupied room IllegalState; on success the guest's full name maps to the reservation, the keys are the old keys plus that name, and occupant and checked-in id are kept |
| RoomStates.RemoveReservation | src/main/java/domain/Room.java:135-145 | succeeds exactly when the id is non-blank and a key; every failure is IllegalArgument; on success the keys are the old keys minus the id, no reservation is new, and occupant and checked-in id are kept |
| RoomStates.CheckInGuest | src/main/java/domain/Room.java:155-172 | succeeds exactly when the id is non-blank, the room unoccupied and the id a key; only a blank id is IllegalArgument; on success the checked-in id is the given id, which holds a reservation, and nothing else changes |
| RoomStates.SetOccupant | src/main/java/domain/Room.java:182-190 | succeeds exactly when the guest is present and the room unoccupied; only an occupied room is IllegalState; on success the guest occupies the room and reservations and checked-in id are kept |
| RoomStates.CheckOutGuest | src/main/java/domain/Room.java:199-220 | succeeds exactly when the id is non-blank, the room occupied and the id equal to the occupant's full name; only a blank id is IllegalArgument; on success the room is unoccupied, the checked-in id cleared, and the keys are the old keys minus the id |
| RoomStates.AddReservationEffect | src/main/java/domain/Room.java:112-127 | null reservation, then null guest, throw IllegalArgument; an occupied room throws IllegalState; all leave the room as it was; otherwise the guest's full name maps to the reservation, other entries and the occupant are kept, the count grows by one for a new name, and the room is no longer available |
| RoomStates.RemoveReservationEffect | src/main/java/domain/Room.java:135-145 | a blank id, then an unknown id, throw IllegalArgument and change nothing; otherwise exactly that entry is removed |
| RoomStates.AddThenRemoveRestores | src/main/java/domain/Room.java:112-145 | adding a reservation under a new name and removing it by the guest's full name restores the room exactly |
| RoomStates.CheckInGuestEffect | src/main/java/domain/Room.java:155-172 | blank id (IllegalArgument), occupied room, missing reservation (both IllegalState) in that order; it succeeds exactly otherwise, and then only the checked-in id changes |
| RoomStates.SetOccupantEffect | src/main/java/domain/Room.java:182-190 | null guest (IllegalArgument), then occupied room (IllegalState); an occupant is never replaced; otherwise the guest moves in and nothing else changes |
| RoomStates.CheckOutGuestEffect | src/main/java/domain/Room.java:199-220 | blank id, empty room, id not equal to the occupant's full name, in that order; it succeeds exactly otherwise, clearing the occupant and checked-in id and dropping that guest's reservation if any |
| RoomStates.CheckOutIsCaseSensitive | src/main/java/domain/Room.java:208-212 | checking out "ahmed khan" from a room occupied by Ahmed Khan throws IllegalState, although the two guests are equal |
| RoomStates.ReserveOccupyCheckOut | src/main/java/Main.java:105-144 | reserve, check in, move in and check out one guest: each step succeeds and the room ends empty and available |
| RoomStates.OccupyBeforeCheckInFails | src/main/java/domain/Room.java:155-172 | moving the guest in before checking in makes the check-in throw IllegalState |
| RoomStates.OperationsPreserveInv | src/main/java/domain/Room.java:112-220 | every operation, succeeding or throwing, keeps the occupant a constructed guest and every reservation key and the checked-in id non-blank |
| RoomStates.EveryKeyCancellable | src/main/java/domain/Room.java:135-145 | in a room satisfying `Inv` (every new room does, and every operation keeps it) every stored reservation can be cancelled by its key |
| Rooms.Room.constructor | src/main/java/domain/Room.java:35-47 | stores number and type; the room starts empty and satisfies `Inv` |
| Rooms.Room.Create | src/main/java/domain/Room.java:35-47 | a non-positive number, then a null type, throw IllegalArgument; otherwise a fresh, empty, available room |
| Rooms.Room.IsOccupied | src/main/java/domain/Room.java:81-83 | agrees with the state machine's occupied test |
| Rooms.Room.IsAvailable | src/main/java/domain/Room.java:90-92 | agrees with the state machine, and holds exactly when there is no occupant and no reservation |
| Rooms.Room.AddReservation | src/main/java/domain/Room.java:112-127 | outcome and new fields are those of the `addReservation` transition on the old fields; a room satisfying `Inv` still does afterwards when any guest passed in was constructed |
| Rooms.Room.RemoveReservation | src/main/java/domain/Room.java:135-145 | outcome and new fields are those of the `removeReservation` transition; a room satisfying `Inv` still does afterwards |
| Rooms.Room.CheckInGuest | src/main/java/domain/Room.java:155-172 | outcome and new fields are those of the `checkInGuest` transition; a room satisfying `Inv` still does afterwards |
| Rooms.Room.SetOccupant | src/main/java/domain/Room.java:182-190 | outcome and new fields are those of the `setOccupant` transition; a room satisfying `Inv` still does afterwards when any guest passed in was constructed |
| Rooms.Room.CheckOutGuest | src/main/java/domain/Room.java:199-220 | outcome and new fields are those of the `checkOutGuest` transition; a room satisfying `Inv` still does afterwards |
| Hotels.Hotel.constructor | src/main/java/domain/Hotel.java:28-34 | stores the name; no rooms |
| Hotels.Hotel.Create | src/main/java/domain/Hotel.java:28-34 | a null name throws IllegalArgument; otherwise a fresh hotel with no rooms |
| Hotels.Hotel.AddRoom | src/main/java/domain/Hotel.java:62-70 | a null room, then a number already present, throw IllegalArgument and change nothing; otherwise exactly one entry is added and the count grows by one |
| Hotels.Hotel.GetRoom | src/main/java/domain/Hotel.java:78-80 | null exactly for an unknown number, otherwise the room filed under it |
| Hotels.Hotel.CreateReservation | src/main/java/domain/Hotel.java:101-115 | null guest, then null reservation, then unknown room throw IllegalArgument with no room changed; otherwise exactly the room's `addReservation` effect on that room and on no other |
| Hotels.Hotel.IsAvailable | src/main/java/domain/Hotel.java:124-130 | an unknown number throws IllegalArgument; otherwise the answer is that room's availability |
| Hotels.Hotel.GetAvailableRoomCount | src/main/java/domain/Hotel.java:137-145 | the loop counts exactly the room numbers whose rooms are available, which is at most the room count |
| HotelChains.HotelChain.constructor | src/main/java/domain/HotelChain.java:27-33 | stores the name; no hotels |
| HotelChains.HotelChain.Create | src/main/java/domain/HotelChain.java:27-33 | a null or blank name throws IllegalArgument; otherwise a fresh chain with no hotels, filing every hotel under its own name |
| HotelChains.HotelChain.AddHotel | src/main/java/domain/HotelChain.java:51-60 | a null hotel throws IllegalArgument; a hotel whose name string is already a key throws IllegalState; both change nothing; otherwise the hotel is filed under its name string and can be looked up by it |
| HotelChains.HotelChain.GetHotel | src/main/java/domain/HotelChain.java:68-70 | null exactly when the name is null or not a key; otherwise the hotel filed under it, whose name string is that key |
| HotelChains.HotelChain.CanMakeReservation | src/main/java/domain/HotelChain.java:120-146 | unknown hotel, null guest, null payer, null reservation, unknown room throw IllegalArgument in that order; otherwise true; never false |
| HotelChains.HotelChain.CanUseGuestId | src/main/java/domain/HotelChain.java:174-189 | unknown hotel, null or blank id, unknown room throw IllegalArgument in that order; otherwise true; never false |
| HotelChains.HotelChain.MakeReservation | src/main/java/domain/HotelChain.java:97-108 | a validation exception propagates with no room changed; otherwise exactly the resolved room's `addReservation` effect, and the chain's hotels are unchanged |
| HotelChains.HotelChain.CancelReservation | src/main/java/domain/HotelChain.java:156-164 | a validation exception propagates with no room changed; otherwise exactly the resolved room's `removeReservation` effect |
| HotelChains.HotelChain.CheckInGuest | src/main/java/domain/HotelChain.java:199-207 | a validation exception propagates with no room changed; otherwise exactly the resolved room's `checkInGuest` effect |
| HotelChains.HotelChain.CheckOutGuest | src/main/java/domain/HotelChain.java:242-250 | a validation exception propagates with no room changed; otherwise exactly the resolved room's `checkOutGuest` effect |
| HotelChains.MakeThenCancel | src/test/java/domain/HotelChainTest.java:162-171 | making a reservation through the chain and cancelling it by the guest's full name both succeed and leave the room exactly as before |

## Left out

- `Main.java`, the demonstration program, is not modelled; its single-room walk-through is the lemma `RoomStates.ReserveOccupyCheckOut`.
- Exception messages are not modelled; each throw site is identified by its exception class and a `Reason` tag.
- `canCancelReservation`, `canCheckInGuest` and `canCheckOutGuest` perform identical checks and are modelled once, as `HotelChain.CanUseGuestId`. Their messages differ ("Reservation ID" or "Guest ID"), but messages are not modelled.
- `Money`, `RoomType`, `RoomKind` and `ReserverPayer` are passed through unchanged (module `PassThrough`). Their own constructors' checks are not part of this model, and `Money`'s floating-point amount is not computed with.
- Case mapping covers ASCII letters only. Java's full Unicode `toLowerCase`, `toUpperCase` and `equalsIgnoreCase` tables and the default locale are not modelled.
- JavaStrings.EqualsIgnoreCaseIffLowerEqual: holds only for ASCII case mapping under a non-Turkish default locale. In Java `"\u0130sa".equalsIgnoreCase("isa")` is true while `"\u0130sa".toLowerCase()` is `"i\u0307sa"`; under a Turkish locale `"Isa".toLowerCase()` is `"\u0131sa"`, not `"isa"`.
- Names.EqualNamesHashEqually: holds only for ASCII case mapping under a non-Turkish default locale; in Java `Name("\u0130sa", "Khan")` equals `Name("isa", "Khan")` but lower-cases to a different string and so may hash differently, and under a Turkish locale so do `Name("Isa", "Khan")` and `Name("isa", "Khan")`.
- Addresses.EqualAddressesHashEqually: holds only for ASCII case mapping under a non-Turkish default locale, for the same reason as `Names.EqualNamesHashEqually`.
- Guests.EqualGuestsHashEqually: holds only for ASCII case mapping under a non-Turkish default locale, since a guest hashes as its name.
- Identities.EqualIdentitiesHashEqually: holds only for ASCII case mapping under a non-Turkish default locale, for the type compared ignoring case.
- CreditCards.EqualCardsHashEqually: holds only for ASCII case mapping under a non-Turkish default locale, for the holder compared ignoring case.
- CreditCards.MaskedNumber: counts the last four Unicode scalar values, not UTF-16 code units. For a number with a character beyond U+FFFF the two differ: `"a\u{1F600}b"` has three scalar values, so the model prints only the four stars, while Java sees four code units and prints them after the stars.
- JavaStrings.HashCode: runs over Unicode scalar values, not UTF-16 code units, so for text with characters beyond U+FFFF it is not Java's `String.hashCode`. The same holds for every length, index and substring of the model's strings.
- `LocalDate` is a day number. `LocalDate.now()` is not modelled: `isActive` takes today as a parameter.
- `Reservation.toString` is not modelled, because it prints `LocalDate`'s ISO text form.
- The `toString` methods that only delegate (`Name`, `Address`, `Guest`) are the functions they delegate to: `FullName`, `CompleteAddress`, `NameAsString`.
- Plain getters are the fields of the datatypes and classes. `Address.getStreet` wraps its return in a try/catch that can never fire, which adds nothing.
- The test-only `Reservation` class under `src/test` is not modelled.
- Aliasing: a `Room` object may be held under two numbers or by two hotels, as in the source. The methods frame only the one room they reach, and nothing is proved about rooms shared between hotels.
- `HotelChain.AddHotel` requires the chain invariant `Valid` (every hotel is filed under its own name string). `Create` establishes `Valid` and `AddHotel` preserves it; it is the only writer of the map.

## Findings

| source | as written | input that shows it | evidently intended | confidence | as-written member | corrected member |
|---|---|---|---|---|---|---|
| src/main/java/domain/Reservation.java:93-95 | `getNumberOfNights` casts the `long` day difference to `int` | start day 0, end day 2^31 (both valid `LocalDate`s): the count comes out as -2^31 | the number of days from start to end, positive for every valid reservation | low, not executed | Reservations.NumberOfNightsOverflows | Reservations.ActiveOnEachNight |
