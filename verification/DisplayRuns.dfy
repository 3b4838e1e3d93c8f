/** When the availability display is right in every state a run can reach. */
module DisplayRuns {
  import opened Basics
  import opened TimeSlots
  import opened Bookings
  import opened SweepTheorems
  import opened Messages
  import opened Text
  import opened ClientText
  import opened ServerModel
  import opened Effects
  import opened Runs
  import opened ShiftBooking
  import opened Shifts
  import opened InitialState
  import opened AvailabilityDisplay

  predicate PlainTime(t: Time) { t.hour >= 0 && t.minute >= 0 }

  /** Opening hours start, and bookings end, at times without a minus sign. */
  predicate PlainCalendar(c: Calendar) {
    && c.Shaped()
    && forall d :: 0 <= d < 7 ==> PlainTime(c.opens[d]) && PlainEnds(c.booked[d])
  }

  predicate PlainEnds(bs: seq<Booking>) {
    forall i :: 0 <= i < |bs| ==> PlainTime(bs[i].timeSlot.End())
  }

  predicate AllPlain(fs: seq<Facility>) {
    forall i :: 0 <= i < |fs| ==> PlainCalendar(fs[i].calendar)
  }

  // ---------- the sweep ----------

  lemma {:induction false} SweepPlain(bs: seq<Booking>, cursor: Time, closing: Time, day: Day)
    requires PlainTime(cursor) && PlainEnds(bs)
    ensures PlainStarts(Sweep(bs, cursor, closing, day))
  {
    if bs != [] {
      assert forall i :: 0 <= i < |bs| - 1 ==> bs[1..][i] == bs[i + 1];
      SweepPlain(bs[1..], bs[0].timeSlot.End(), closing, day);
    }
  }

  lemma SortPlain(bs: seq<Booking>)
    requires PlainEnds(bs)
    ensures PlainEnds(SortByStart(bs))
  {
    var r := SortByStart(bs);
    forall i | 0 <= i < |r| ensures PlainTime(r[i].timeSlot.End()) {
      assert r[i] in r;
      SortMember(bs, r[i]);
    }
  }

  lemma PlainCalendarShows(c: Calendar, asked: seq<Day>)
    requires PlainCalendar(c)
    ensures PlainDays(c, asked)
  {
    forall day: Day ensures PlainStarts(FreeSlots(c, day)) {
      var d := Index(day);
      SortPlain(c.booked[d]);
      SweepPlain(SortByStart(c.booked[d]), c.opens[d], c.closes[d], day);
    }
  }

  // ---------- runs ----------

  /** The hypothesis on a request: the slot it asks for, if it asks for one, ends at a time
      without a minus sign. */
  predicate PlainRequest(a: Arrival) {
    a.m.Some? && Requested(a.m.value, a.env).Some? ==> PlainTime(Requested(a.m.value, a.env).value.slot.End())
  }

  lemma BookPlain(c: Calendar, id: string, user: string, slot: TimeSlot)
    requires PlainCalendar(c) && PlainTime(slot.End())
    ensures PlainCalendar(Book(c, id, user, slot))
  {
  }

  lemma RemovePlain(c: Calendar, id: string, user: string)
    requires PlainCalendar(c)
    ensures PlainCalendar(Remove(c, id, user))
  {
    var d := FindDay(c.booked, id, user, 0);
    if d < |c.booked| {
      var i := Find(c.booked[d], id, user);
      var r := Without(c.booked[d], i);
      assert forall k :: 0 <= k < |r| ==> r[k] == c.booked[d][if k < i then k else k + 1];
    }
  }

  lemma ApplyPlain(fs: seq<Facility>, e: Effect)
    requires AllPlain(fs) && Guarded(fs, e)
    requires e.Booked? || e.Moved? ==> PlainTime(e.slot.End())
    ensures AllPlain(Apply(fs, e))
  {
    hide PlainCalendar, IsAvailable, Book, Remove;
    match e
    case Booked(i, id, user, slot) => BookPlain(fs[i].calendar, id, user, slot);
    case Moved(i, previous, id, user, slot) =>
      RemovePlain(fs[i].calendar, previous, user);
      BookPlain(Remove(fs[i].calendar, previous, user), id, user, slot);
    case Removed(i, previous, user) => RemovePlain(fs[i].calendar, previous, user);
    case _ =>
  }

  lemma ExecutePlain(core: Core, a: Arrival)
    requires core.Shaped() && AllPlain(core.facilities) && PlainRequest(a)
    requires a.m.Some? && Execute(core, a.m.value, a.client, a.env).Executed?
    ensures AllPlain(Execute(core, a.m.value, a.client, a.env).core.facilities)
  {
    hide Execute, Apply, AllPlain, Requested, IsAvailable, Guarded;
    ExecuteApplies(core, a.m.value, a.client, a.env);
    ApplyPlain(core.facilities, EffectOf(core, a.m.value, a.client, a.env));
  }

  lemma ReachablePlain(mach: Machine, checkHistory: bool, arrivals: seq<Arrival>)
    requires mach.st.core.Shaped() && AllPlain(mach.st.core.facilities)
    requires forall a <- arrivals :: PlainRequest(a)
    ensures AllPlain(Run(mach, checkHistory, arrivals).st.core.facilities)
  {
    hide AllPlain, Execute, Step, PlainRequest;
    var inv := (fs: seq<Facility>) => AllPlain(fs);
    var allowed := (a: Arrival) => PlainRequest(a);
    forall core: Core, a: Arrival | core.Shaped() && inv(core.facilities) && a.m.Some? && allowed(a)
                                    && Execute(core, a.m.value, a.client, a.env).Executed?
      ensures inv(Execute(core, a.m.value, a.client, a.env).core.facilities)
    {
      ExecutePlain(core, a);
    }
    RunKeeps(mach, checkHistory, arrivals, inv, allowed);
  }

  /** After any run of such requests, under either invocation semantics, asking for the
      availability of any facility on any days shows exactly what is free. */
  lemma DisplayAlwaysRight(mach: Machine, checkHistory: bool, arrivals: seq<Arrival>,
                           name: string, asked: seq<Day>, requestID: int32, client: Endpoint, env: Env)
    requires mach.st.core.Shaped() && AllPlain(mach.st.core.facilities)
    requires forall a <- arrivals :: PlainRequest(a)
    requires '\n' !in name && ',' !in name && name != "" && name != "ALL"
    ensures var core := Run(mach, checkHistory, arrivals).st.core;
            var i := FacilityIndex(core.facilities, name);
            i < |core.facilities| ==>
              var days := Join(DayNames(asked), ',');
              var r := Execute(core, RequestMessage(OpCode(READ), requestID, Some(QueryData(name, days))), client, env);
              r.Executed?
              && ResponseParser.Parsed(r.response.data.value, days)
                 == ["Facility Availability", "Facility: " + name]
                    + Entries(core.facilities[i].calendar, WEEK, asked, Show)
  {
    hide Execute, Step, PlainRequest, PlainCalendar, PlainDays, ResponseParser.Parsed, Entries, Join, DayNames,
         QueryData;
    ReachablePlain(mach, checkHistory, arrivals);
    var core := Run(mach, checkHistory, arrivals).st.core;
    var i := FacilityIndex(core.facilities, name);
    if i < |core.facilities| {
      PlainCalendarShows(core.facilities[i].calendar, asked);
      QueryDisplays(core, name, asked, requestID, client, env);
    }
  }

  /** The program's first state qualifies. */
  lemma InitiallyPlain()
    ensures INITIAL.Shaped() && AllPlain(INITIAL.facilities)
  {
    hide Opened, PlainCalendar;
    OpenedPlain([MONDAY, TUESDAY, WEDNESDAY], Time(8, 0), Time(17, 0));
    OpenedPlain([WEDNESDAY, THURSDAY, FRIDAY], Time(8, 30), Time(23, 30));
    OpenedPlain([SATURDAY, SUNDAY], Time(9, 0), Time(18, 0));
  }

  lemma {:induction false} OpenedPlain(days: seq<Day>, from: Time, to: Time)
    requires PlainTime(from)
    ensures PlainCalendar(Opened(days, from, to))
  {
    assert forall d :: 0 <= d < 7 ==> CLOSED.booked[d] == [];
    if days != [] {
      OpenedPlain(days[..|days| - 1], from, to);
    }
  }

  // ---------- the hypothesis is needed ----------

  /** Open from midnight until an hour after the slot ends, with nothing booked. */
  function NoBookings(slot: TimeSlot): (c: Calendar)
    ensures c.Shaped()
  {
    var o, e := Time(0, 0), HourLater(slot.End(), 1);
    Calendar([true, true, true, true, true, true, true], [o, o, o, o, o, o, o], [e, e, e, e, e, e, e],
             [[], [], [], [], [], [], []])
  }

  /** The hypothesis on a request is exact: booking the slot keeps the display right on every
      calendar with such times iff the slot ends at such a time. */
  lemma StaysPlainIff(slot: TimeSlot, id: string, user: string)
    ensures (forall c: Calendar :: PlainCalendar(c) && IsAvailable(c, slot) ==> PlainDays(Book(c, id, user, slot), []))
            <==> PlainTime(slot.End())
  {
    hide PlainDays, PlainTime;
    if PlainTime(slot.End()) {
      forall c: Calendar | PlainCalendar(c) && IsAvailable(c, slot) ensures PlainDays(Book(c, id, user, slot), []) {
        BookPlain(c, id, user, slot);
        PlainCalendarShows(Book(c, id, user, slot), []);
      }
    } else {
      NoBookingsPlain(slot);
      NoBookingsMislead(slot, id, user);
    }
  }

  lemma NoBookingsPlain(slot: TimeSlot)
    ensures PlainCalendar(NoBookings(slot)) && IsAvailable(NoBookings(slot), slot)
  {
    assert forall d :: 0 <= d < 7 ==> NoBookings(slot).booked[d] == [];
  }

  lemma NoBookingsMislead(slot: TimeSlot, id: string, user: string)
    requires !PlainTime(slot.End())
    ensures !PlainDays(Book(NoBookings(slot), id, user, slot), [])
  {
    var b, c', closing := Booking(id, user, slot), Book(NoBookings(slot), id, user, slot), HourLater(slot.End(), 1);
    assert c'.booked[Index(slot.day)] == [b] && [b][1..] == [];
    assert SortByStart([b]) == [b];
    var gaps := GapIfAny(Time(0, 0), slot.Start(), slot.day);
    assert Sweep([b], Time(0, 0), closing, slot.day) == gaps + Sweep([], slot.End(), closing, slot.day);
    assert FreeSlots(c', slot.day)[|gaps|] == Gap(slot.End(), closing, slot.day);
    assert !PlainStarts(FreeSlots(c', slot.day));
  }

  const BEFORE_MIDNIGHT: TimeSlot := TimeSlot(-2, 0, -1, 0, MONDAY)

  /** From the program's first state a booking from -2:00 to -1:00 is accepted, and from then
      on asking for Monday shows something else than what is free. */
  lemma NegativeTimesShownWrong(requestID: int32, client: Endpoint, env: Env)
    ensures var data := BookData("Weekday1", "MONDAY", "-200", "-100");
            data.Some? &&
            var r := Execute(INITIAL, RequestMessage(OpCode(WRITE), requestID, data), client, env);
            r.Executed? &&
            var query := RequestMessage(OpCode(READ), requestID,
                                        Some(QueryData("Weekday1", Join(DayNames([MONDAY]), ','))));
            var q := Execute(r.core, query, client, env);
            var i := FacilityIndex(r.core.facilities, "Weekday1");
            i < |r.core.facilities| && q.Executed?
            && ResponseParser.Parsed(q.response.data.value, Join(DayNames([MONDAY]), ','))
               != ["Facility Availability", "Facility: Weekday1"]
                  + Entries(r.core.facilities[i].calendar, WEEK, [MONDAY], Show)
  {
    hide Execute, INITIAL, IsAvailable, Book, BookData, ParseBooking, UserInfo, Pad2, ResponseParser.Parsed, Entries,
         Join, DayNames, QueryData, PlainDays;
    NegativeDigits();
    BookedAsTyped("Weekday1", BEFORE_MIDNIGHT);
    NegativeAccepted(env.uuid, UserInfo(client));
    var m := RequestMessage(OpCode(WRITE), requestID, BookData("Weekday1", "MONDAY", "-200", "-100"));
    WriteAccepted(INITIAL, m, BookingDetails("", "Weekday1", BEFORE_MIDNIGHT), client, env);
    var core := Execute(INITIAL, m, client, env).core;
    assert core.facilities[0].name == "Weekday1";
    assert FacilityIndex(core.facilities, "Weekday1") == 0;
    QueryDisplays(core, "Weekday1", [MONDAY], requestID, client, env);
    assert "Facility: " + "Weekday1" == "Facility: Weekday1";
  }

  lemma NegativeDigits()
    ensures DayName(MONDAY) == "MONDAY" && StartText(BEFORE_MIDNIGHT) == "-200" && EndText(BEFORE_MIDNIGHT) == "-100"
  {
    assert PrintNat(0) == "0" && PrintNat(1) == "1" && PrintNat(2) == "2";
    assert Pad2(-2) == "-2" && Pad2(-1) == "-1" && Pad2(0) == "00";
  }

  lemma NegativeAccepted(id: string, user: string)
    ensures INITIAL.Shaped() && |INITIAL.facilities| == 3 && INITIAL.facilities[0].name == "Weekday1"
    ensures FacilityIndex(INITIAL.facilities, "Weekday1") == 0
    ensures IsAvailable(INITIAL.facilities[0].calendar, BEFORE_MIDNIGHT)
    ensures !PlainDays(Book(INITIAL.facilities[0].calendar, id, user, BEFORE_MIDNIGHT), [MONDAY])
  {
    hide Opened;
    var c := INITIAL.facilities[0].calendar;
    OpenedDays([MONDAY, TUESDAY, WEDNESDAY], Time(8, 0), Time(17, 0), MONDAY);
    OpenedHours([MONDAY, TUESDAY, WEDNESDAY], Time(8, 0), Time(17, 0), 0);
    assert c.booked[0] == [] && c.days[0] && c.opens[0] == Time(8, 0) && c.closes[0] == Time(17, 0);
    NegativeSwept(c, id, user);
  }

  lemma NegativeSwept(c: Calendar, id: string, user: string)
    requires c.Shaped() && c.booked[0] == [] && c.days[0] && c.opens[0] == Time(8, 0) && c.closes[0] == Time(17, 0)
    ensures !PlainDays(Book(c, id, user, BEFORE_MIDNIGHT), [MONDAY])
  {
    var b := Booking(id, user, BEFORE_MIDNIGHT);
    var c' := Book(c, id, user, BEFORE_MIDNIGHT);
    assert c'.booked[0] == [b];
    assert [b][1..] == [];
    assert SortByStart([b]) == [b];
    assert Sweep([b], Time(8, 0), Time(17, 0), MONDAY)
        == GapIfAny(Time(8, 0), Time(-2, 0), MONDAY) + Sweep([], Time(-1, 0), Time(17, 0), MONDAY);
    assert FreeSlots(c', MONDAY)[0] == TimeSlot(-1, 0, 17, 0, MONDAY);
    assert MONDAY in [MONDAY];
    assert !PlainStarts(FreeSlots(c', MONDAY));
  }
}
