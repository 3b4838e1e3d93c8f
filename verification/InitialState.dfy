/** The facilities the server creates when it starts. They meet every hypothesis the theorems
    about runs make on the first state. */
module InitialState {
  import opened TimeSlots
  import opened Bookings
  import opened ServerModel
  import opened BookingInvariants
  import opened Identifiers

  function OpenOn(c: Calendar, day: Day, from: Time, to: Time): (c': Calendar)
    requires c.Shaped()
    ensures c'.Shaped() && c'.booked == c.booked
  {
    var d := Index(day);
    c.(days := c.days[d := true], opens := c.opens[d := from], closes := c.closes[d := to])
  }

  const MIDNIGHT: Time := Time(0, 0)

  const CLOSED: Calendar :=
    Calendar([false, false, false, false, false, false, false],
             [MIDNIGHT, MIDNIGHT, MIDNIGHT, MIDNIGHT, MIDNIGHT, MIDNIGHT, MIDNIGHT],
             [MIDNIGHT, MIDNIGHT, MIDNIGHT, MIDNIGHT, MIDNIGHT, MIDNIGHT, MIDNIGHT],
             [[], [], [], [], [], [], []])

  function Opened(days: seq<Day>, from: Time, to: Time): (c: Calendar)
    ensures c.Shaped() && c.booked == CLOSED.booked
  {
    if days == [] then CLOSED else OpenOn(Opened(days[..|days| - 1], from, to), days[|days| - 1], from, to)
  }

  const INITIAL: Core :=
    Core([Facility("Weekday1", Opened([MONDAY, TUESDAY, WEDNESDAY], Time(8, 0), Time(17, 0)), Rating(0.0, 0, 0.0)),
          Facility("Weekday2", Opened([WEDNESDAY, THURSDAY, FRIDAY], Time(8, 30), Time(23, 30)), Rating(0.0, 0, 0.0)),
          Facility("Weekends", Opened([SATURDAY, SUNDAY], Time(9, 0), Time(18, 0)), Rating(0.0, 0, 0.0))],
         [])

  lemma {:induction false} OpenedHours(days: seq<Day>, from: Time, to: Time, d: nat)
    requires d < 7
    ensures Opened(days, from, to).days[d]
            ==> Opened(days, from, to).opens[d] == from && Opened(days, from, to).closes[d] == to
  {
    if days != [] {
      OpenedHours(days[..|days| - 1], from, to, d);
    }
  }

  lemma {:induction false} OpenedDays(days: seq<Day>, from: Time, to: Time, day: Day)
    ensures Opened(days, from, to).days[Index(day)] <==> day in days
  {
    if days != [] {
      var last := days[|days| - 1];
      OpenedDays(days[..|days| - 1], from, to, day);
      assert days == days[..|days| - 1] + [last];
      assert Index(day) == Index(last) ==> WEEK[Index(day)] == last;
    }
  }

  predicate Unbooked(fs: seq<Facility>) {
    forall i :: 0 <= i < |fs| ==> fs[i].calendar.Shaped() && fs[i].calendar.booked == CLOSED.booked
  }

  lemma UnbookedFine(fs: seq<Facility>, inHours: bool)
    requires Unbooked(fs)
    ensures AllSound(fs) && AllOrderly(fs, inHours) && UniqueIDs(fs)
    ensures forall id :: Unused(fs, id)
  {
    forall i | 0 <= i < |fs| ensures Sound(fs[i].calendar) && Orderly(fs[i].calendar, inHours) {
      assert forall d :: 0 <= d < 7 ==> CLOSED.booked[d] == [];
    }
  }

  predicate OpensEarly(c: Calendar)
    requires c.Shaped()
  {
    forall d :: 0 <= d < 7 && c.days[d] ==> Before(c.opens[d], c.closes[d])
  }

  lemma OpenedEarly(days: seq<Day>, from: Time, to: Time)
    requires Before(from, to)
    ensures OpensEarly(Opened(days, from, to))
  {
    forall d | 0 <= d < 7 && Opened(days, from, to).days[d]
      ensures Before(Opened(days, from, to).opens[d], Opened(days, from, to).closes[d])
    {
      OpenedHours(days, from, to, d);
    }
  }

  /** The facilities the server creates at the start meet every hypothesis made on the first
      state of a run. */
  lemma InitiallyFine(inHours: bool)
    ensures INITIAL.Shaped() && AllSound(INITIAL.facilities) && AllOrderly(INITIAL.facilities, inHours)
    ensures UniqueIDs(INITIAL.facilities) && forall id :: Unused(INITIAL.facilities, id)
    ensures forall i :: 0 <= i < 3 ==> OpensEarly(INITIAL.facilities[i].calendar)
  {
    hide Opened, AllSound, AllOrderly, UniqueIDs, Unused, OpensEarly;
    OpenedEarly([MONDAY, TUESDAY, WEDNESDAY], Time(8, 0), Time(17, 0));
    OpenedEarly([WEDNESDAY, THURSDAY, FRIDAY], Time(8, 30), Time(23, 30));
    OpenedEarly([SATURDAY, SUNDAY], Time(9, 0), Time(18, 0));
    UnbookedFine(INITIAL.facilities, inHours);
  }
}
