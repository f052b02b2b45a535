/**
 Desk bookings (main/models.py) and the two booking forms (main/forms.py):
 the "on behalf of" description of a booking, the rule that a booking date
 may not lie in the past, and the floors a building offers once it is chosen.
 */
module Bookings {
  import opened Results
  import opened Users

  type BuildingId = nat

  /** A calendar date, compared the way Python compares `datetime.date` values. */
  datatype Date = Date(year: int, month: int, day: int)

  datatype Floor = Floor(building: BuildingId, name: string, nrOfDesks: nat)

  /** A booking. `onBehalfOfName` and `onBehalfOfDitEmail` are nullable text
      columns; either being filled in means the desk was booked for someone else. */
  datatype Booking = Booking(
    isActive: bool,
    user: UserId,
    onBehalfOfName: Option<string>,
    onBehalfOfDitEmail: Option<string>,
    bookingDate: Date,
    building: BuildingId,
    floor: Floor,
    group: Option<string>,
    businessUnit: Option<string>)

  const YourselfLabel: string := "Yourself"
  const PastBookingMessage: string := "Bookings cannot be in the past."

  /** Python truthiness of a nullable text: neither `None` nor `""`. */
  predicate Given(v: Option<string>) {
    v.Some? && v.value != ""
  }

  // ---------------------------------------------------------------------------
  // Booking.get_on_behalf_of

  /** `Booking.get_on_behalf_of`, branch for branch. */
  function OnBehalfOf(b: Booking): (r: string)
    ensures r != ""
    ensures Given(b.onBehalfOfName) ==> b.onBehalfOfName.value <= r
    ensures !Given(b.onBehalfOfName) ==>
              r == if Given(b.onBehalfOfDitEmail) then b.onBehalfOfDitEmail.value else YourselfLabel
  {
    if Given(b.onBehalfOfName) || Given(b.onBehalfOfDitEmail) then
      if Given(b.onBehalfOfName) then
        if Given(b.onBehalfOfDitEmail) then
          b.onBehalfOfName.value + " (" + b.onBehalfOfDitEmail.value + ")"
        else
          b.onBehalfOfName.value
      else
        b.onBehalfOfDitEmail.value
    else
      YourselfLabel
  }

  /** The four shapes the description takes; `None` and `""` both count as absent. */
  lemma OnBehalfOfCases(b: Booking)
    ensures !Given(b.onBehalfOfName) && !Given(b.onBehalfOfDitEmail) ==>
            OnBehalfOf(b) == "Yourself"
    ensures Given(b.onBehalfOfName) && !Given(b.onBehalfOfDitEmail) ==>
            OnBehalfOf(b) == b.onBehalfOfName.value
    ensures !Given(b.onBehalfOfName) && Given(b.onBehalfOfDitEmail) ==>
            OnBehalfOf(b) == b.onBehalfOfDitEmail.value
    ensures Given(b.onBehalfOfName) && Given(b.onBehalfOfDitEmail) ==>
            OnBehalfOf(b) == b.onBehalfOfName.value + " (" + b.onBehalfOfDitEmail.value + ")"
  {
  }

  /** The description is never empty, and when both fields are given it can
      be taken apart again into the name and the e-mail address. */
  lemma OnBehalfOfReadable(b: Booking)
    ensures OnBehalfOf(b) != ""
    ensures Given(b.onBehalfOfName) && Given(b.onBehalfOfDitEmail) ==>
            var r, n, e := OnBehalfOf(b), b.onBehalfOfName.value, b.onBehalfOfDitEmail.value;
            |r| == |n| + |e| + 3 && r[..|n|] == n && r[|n|..|n| + 2] == " ("
            && r[|n| + 2..|r| - 1] == e && r[|r| - 1] == ')'
  {
  }

  // ---------------------------------------------------------------------------
  // Booking dates

  /** `a < b` on dates: year first, then month, then day. */
  predicate Before(a: Date, b: Date) {
    a.year < b.year
    || (a.year == b.year && a.month < b.month)
    || (a.year == b.year && a.month == b.month && a.day < b.day)
  }

  /** Month and day within the ranges a date's fields can take. Month
      lengths are not checked: every month is taken to have 31 days. */
  predicate InFieldRanges(d: Date) {
    1 <= d.month <= 12 && 1 <= d.day <= 31
  }

  /** A single number per date, counting 31-day months and 372-day years:
      not a count of days, but a key that increases with year, month and day. */
  function DateKey(d: Date): int {
    d.year * 12 * 31 + (d.month - 1) * 31 + (d.day - 1)
  }

  /** The lexicographic date order is the order of the date key. */
  lemma BeforeIsKeyOrder(a: Date, b: Date)
    requires InFieldRanges(a) && InFieldRanges(b)
    ensures Before(a, b) <==> DateKey(a) < DateKey(b)
  {
    if a.year < b.year {
      assert DateKey(a) < a.year * 372 + 372 <= DateKey(b);
    } else if a.year > b.year {
      assert DateKey(b) < b.year * 372 + 372 <= DateKey(a);
    }
  }

  /** `BookingForm.clean_booking_date`; `today` stands for `datetime.date.today()`. */
  function BookingFormCleanDate(bookingDate: Date, today: Date): (r: Result<Date, string>)
    ensures r.Err? <==> Before(bookingDate, today)
    ensures r.Err? ==> r.error == PastBookingMessage
    ensures r.Ok? ==> r.value == bookingDate
  {
    if Before(bookingDate, today) then Err(PastBookingMessage) else Ok(bookingDate)
  }

  /** `BookingForm2.clean_booking_date`, a second copy of the same rule. */
  function BookingForm2CleanDate(bookingDate: Date, today: Date): (r: Result<Date, string>)
    ensures r.Err? <==> Before(bookingDate, today)
    ensures r.Err? ==> r.error == PastBookingMessage
    ensures r.Ok? ==> r.value == bookingDate
  {
    if Before(bookingDate, today) then Err(PastBookingMessage) else Ok(bookingDate)
  }

  /** Today is bookable, and so is every later day: the accepted dates are
      exactly those whose date key is not below today's. */
  lemma BookableDatesFromToday(d: Date, today: Date)
    requires InFieldRanges(d) && InFieldRanges(today)
    ensures BookingFormCleanDate(today, today) == Ok(today)
    ensures BookingFormCleanDate(d, today).Ok? <==> DateKey(today) <= DateKey(d)
  {
    BeforeIsKeyOrder(d, today);
  }

  lemma BothFormsApplySameDateRule(d: Date, today: Date)
    ensures BookingFormCleanDate(d, today) == BookingForm2CleanDate(d, today)
  {
  }

  // ---------------------------------------------------------------------------
  // Floors offered by BookingForm2

  /** `a <= b` on names: Python's code-point-wise lexicographic string order. */
  predicate NameLe(a: string, b: string)
    decreases |a|
  {
    if |a| == 0 then true
    else if |b| == 0 then false
    else if a[0] != b[0] then a[0] < b[0]
    else NameLe(a[1..], b[1..])
  }

  lemma {:induction false} NameLeTotal(a: string, b: string)
    ensures NameLe(a, b) || NameLe(b, a)
    decreases |a|
  {
    if |a| > 0 && |b| > 0 && a[0] == b[0] {
      NameLeTotal(a[1..], b[1..]);
    }
  }

  predicate SortedByName(floors: seq<Floor>) {
    forall i :: 0 < i < |floors| ==> NameLe(floors[i - 1].name, floors[i].name)
  }

  /** Insert a floor in front of the first floor whose name is not smaller. */
  function InsertByName(f: Floor, sorted: seq<Floor>): (r: seq<Floor>)
    requires SortedByName(sorted)
    ensures SortedByName(r)
    ensures multiset(r) == multiset(sorted) + multiset{f}
    ensures r[0] == f || (|sorted| > 0 && r[0] == sorted[0])
    decreases |sorted|
  {
    if |sorted| == 0 || NameLe(f.name, sorted[0].name) then [f] + sorted
    else
      NameLeTotal(f.name, sorted[0].name);
      var rest := InsertByName(f, sorted[1..]);
      assert sorted == [sorted[0]] + sorted[1..];
      [sorted[0]] + rest
  }

  /** Floors ordered by name, as `order_by("name")` orders them. */
  function SortByName(floors: seq<Floor>): (r: seq<Floor>)
    ensures SortedByName(r)
    ensures multiset(r) == multiset(floors)
    decreases |floors|
  {
    if |floors| == 0 then []
    else
      assert floors == [floors[0]] + floors[1..];
      InsertByName(floors[0], SortByName(floors[1..]))
  }

  /** `Floor.objects.filter(building=building)`, in storage order. */
  function FloorsOf(floors: seq<Floor>, building: BuildingId): (r: seq<Floor>)
    ensures forall f :: f in r <==> f in floors && f.building == building
    ensures forall g :: multiset(r)[g] == if g.building == building then multiset(floors)[g] else 0
    decreases |floors|
  {
    if |floors| == 0 then []
    else
      assert floors == [floors[0]] + floors[1..];
      (if floors[0].building == building then [floors[0]] else []) + FloorsOf(floors[1..], building)
  }

  /** The floors `BookingForm2` lets the user pick from. With a building, they
      are that building's floors, every one of them, ordered by name; without
      one, the field keeps its unrestricted default, every floor there is. */
  function FloorChoices(floors: seq<Floor>, building: Option<BuildingId>): (r: seq<Floor>)
    ensures building.Some? ==>
              SortedByName(r)
              && multiset(r) == multiset(FloorsOf(floors, building.value))
              && forall f :: f in r <==> f in floors && f.building == building.value
    ensures building.None? ==> r == floors
  {
    match building
    case None => floors
    case Some(b) =>
      var r := SortByName(FloorsOf(floors, b));
      assert forall f :: f in r <==> f in multiset(r);
      r
  }
}
