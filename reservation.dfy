/** `domain.Reservation`: a stay from a start date to an end date for a number of guests. */
module Reservations {
  import opened Common
  import opened Quantities

  /** A calendar date as a day number (`LocalDate.toEpochDay()`). */
  type Date = int

  /** `reservationDate` is declared but never assigned, so it is always null. */
  datatype Reservation = Reservation(reservationDate: Option<Date>, start: Date, end: Date, guests: HowMany)

  predicate ValidReservation(r: Reservation) {
    r.reservationDate.None? && r.start < r.end && r.guests.number >= 1
  }

  /** The constructor: rejects a null start date, end date or guest count (in
      that order), then an end date that is not after the start date. */
  function NewReservation(start: Option<Date>, end: Option<Date>, guests: Option<HowMany>): (r: Result<Reservation>)
    ensures r.Ok? <==> start.Some? && end.Some? && guests.Some? && start.value < end.value
    ensures start.None? ==> r == Err(IllegalArgument(StartDateNull))
    ensures start.Some? && end.None? ==> r == Err(IllegalArgument(EndDateNull))
    ensures start.Some? && end.Some? && guests.None? ==> r == Err(IllegalArgument(GuestCountNull))
    ensures start.Some? && end.Some? && guests.Some? && end.value <= start.value ==> r == Err(IllegalArgument(EndNotAfterStart))
    ensures r.Ok? ==> r.value == Reservation(None, start.value, end.value, guests.value)
    ensures r.Ok? && guests.value.number >= 1 ==> ValidReservation(r.value)
  {
    if start.None? then Err(IllegalArgument(StartDateNull))
    else if end.None? then Err(IllegalArgument(EndDateNull))
    else if guests.None? then Err(IllegalArgument(GuestCountNull))
    else if end.value < start.value || end.value == start.value then Err(IllegalArgument(EndNotAfterStart))
    else Ok(Reservation(None, start.value, end.value, guests.value))
  }

  /** `getNumberOfNights()` as written: the `long` day count cast to `int`. */
  function NumberOfNights(r: Reservation): (n: Int32)
    ensures (Nights(r) - n) % 0x1_0000_0000 == 0
    ensures Nights(r) < 0x8000_0000 && r.start <= r.end ==> n == Nights(r)
  {
    Wrap32(r.end - r.start)
  }

  /** The number of nights as intended: the days between the two dates. */
  function Nights(r: Reservation): (n: int)
    ensures ValidReservation(r) ==> n >= 1
    ensures r.start + n == r.end
  {
    r.end - r.start
  }

  /** For every stay shorter than 2^31 days the source's `int` count is the intended one. */
  lemma NumberOfNightsWithinRange(r: Reservation)
    requires ValidReservation(r) && r.end - r.start < 0x8000_0000
    ensures NumberOfNights(r) == Nights(r) && NumberOfNights(r) >= 1
  {
  }

  /** The `(int)` cast loses the count for a stay of 2^31 days, which
      `LocalDate` can represent: the night count comes out negative. */
  lemma NumberOfNightsOverflows()
    ensures var r := Reservation(None, 0, 0x8000_0000, HowMany(1));
      ValidReservation(r) && Nights(r) == 0x8000_0000 && NumberOfNights(r) == -0x8000_0000
  {
  }

  /** `isActive()` with today passed in: started and not yet ended. */
  predicate IsActive(r: Reservation, today: Date)
    ensures IsActive(r, today) <==> 0 <= today - r.start < Nights(r)
    ensures IsActive(r, today) ==> Nights(r) >= 1
  {
    r.start <= today && today < r.end
  }

  /** The days on which the reservation is active. */
  ghost function ActiveDays(r: Reservation): set<Date> {
    set d | r.start <= d < r.end && IsActive(r, d)
  }

  /** A reservation is active on exactly as many days as it has nights, and on no day outside its stay. */
  lemma ActiveOnEachNight(r: Reservation)
    requires ValidReservation(r)
    ensures forall d :: IsActive(r, d) <==> d in ActiveDays(r)
    ensures |ActiveDays(r)| == Nights(r)
  {
    RangeSize(r.start, r.end);
    assert ActiveDays(r) == DayRange(r.start, r.end);
  }

  predicate InRange(d: int, a: int, b: int) {
    a <= d < b
  }

  /** The days from `a` up to but excluding `b`. */
  ghost function DayRange(a: int, b: int): set<int> {
    set d | a <= d < b && InRange(d, a, b)
  }

  lemma {:induction false} RangeSize(a: int, b: int)
    requires a <= b
    ensures |DayRange(a, b)| == b - a
    decreases b - a
  {
    if a < b {
      RangeSize(a, b - 1);
      assert DayRange(a, b) == DayRange(a, b - 1) + {b - 1};
    } else {
      assert DayRange(a, b) == {};
    }
  }
}
