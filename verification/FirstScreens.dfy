/** What a client sees of a server that has just started: the facilities and when they are
    open. */
module FirstScreens {
  import opened Basics
  import opened TimeSlots
  import opened Bookings
  import opened Messages
  import opened Text
  import opened ClientText
  import opened ServerModel
  import opened ResponseParser
  import opened DetailsParser
  import opened ReplyTexts
  import opened InitialState
  import opened AvailabilityDisplay
  import opened DisplayRuns
  import opened Screens

  /** The list of facilities. */
  lemma FirstNames(requestID: int32, client: Endpoint, env: Env)
    ensures INITIAL.Shaped() &&
            var r := Execute(INITIAL, RequestMessage(OpCode(READ), requestID, Some(NAMES_QUERY)), client, env);
            r.Executed? && NamesShown(r.response.data.value) == ["Facility Names", "Weekday1", "Weekday2", "Weekends"]
  {
    hide Execute, NamesShown, INITIAL, NamesOf;
    FirstFacilities();
    assert NamesOf(INITIAL.facilities) == ["Weekday1", "Weekday2", "Weekends"];
    ThreeNames();
    NamesScreen(INITIAL, requestID, client, env);
  }

  lemma ThreeNames()
    ensures forall f <- INITIAL.facilities :: f.name != "" && ',' !in f.name && '\n' !in f.name
  {
    hide INITIAL;
    FirstFacilities();
    forall f | f in INITIAL.facilities ensures f.name != "" && ',' !in f.name && '\n' !in f.name {
      assert f.name == "Weekday1" || f.name == "Weekday2" || f.name == "Weekends";
    }
  }

  lemma OpenSlots(days: seq<Day>, from: Time, to: Time, day: Day)
    requires Before(from, to)
    ensures FreeSlots(Opened(days, from, to), day) == if day in days then [Gap(from, to, day)] else []
  {
    OpenedDays(days, from, to, day);
    OpenedHours(days, from, to, Index(day));
    var c := Opened(days, from, to);
    assert c.booked[Index(day)] == [];
    assert SortByStart([]) == [];
  }

  lemma FirstTimes()
    ensures StartText(Gap(Time(8, 0), Time(17, 0), MONDAY)) == "0800"
    ensures EndText(Gap(Time(8, 0), Time(17, 0), MONDAY)) == "1700"
    ensures StartText(Gap(Time(8, 30), Time(23, 30), MONDAY)) == "0830"
    ensures EndText(Gap(Time(8, 30), Time(23, 30), MONDAY)) == "2330"
    ensures StartText(Gap(Time(9, 0), Time(18, 0), MONDAY)) == "0900"
    ensures EndText(Gap(Time(9, 0), Time(18, 0), MONDAY)) == "1800"
  {
    forall d: nat | d < 10 ensures PrintNat(d) == [Digit(d)] {
    }
    assert Pad2(0) == "00" && Pad2(8) == "08" && Pad2(9) == "09";
    assert PrintNat(17) == PrintNat(1) + "7" && PrintNat(18) == PrintNat(1) + "8" && PrintNat(23) == PrintNat(2) + "3"
        && PrintNat(30) == PrintNat(3) + "0";
    assert Pad2(17) == "17" && Pad2(18) == "18" && Pad2(23) == "23" && Pad2(30) == "30";
  }

  lemma SevenEntries(c: Calendar)
    requires c.Shaped()
    ensures Entries(c, WEEK, [], Show)
            == Entry(c, MONDAY, [], Show) + Entry(c, TUESDAY, [], Show) + Entry(c, WEDNESDAY, [], Show)
               + Entry(c, THURSDAY, [], Show) + Entry(c, FRIDAY, [], Show) + Entry(c, SATURDAY, [], Show)
               + Entry(c, SUNDAY, [], Show)
  {
    hide Entry, Show;
    EntriesFrom(c, 0);
    EntriesFrom(c, 1);
    EntriesFrom(c, 2);
    EntriesFrom(c, 3);
    EntriesFrom(c, 4);
    EntriesFrom(c, 5);
    EntriesFrom(c, 6);
    assert WEEK[0..] == WEEK && Entries(c, WEEK[7..], [], Show) == [];
  }

  lemma EntriesFrom(c: Calendar, k: nat)
    requires c.Shaped() && k < 7
    ensures Entries(c, WEEK[k..], [], Show) == Entry(c, WEEK[k], [], Show) + Entries(c, WEEK[k + 1..], [], Show)
  {
    hide Entry, Show;
    assert WEEK[k..][1..] == WEEK[k + 1..];
  }

  /** The entry of a day of a facility nobody has booked. */
  lemma FreeEntry(days: seq<Day>, from: Time, to: Time, day: Day)
    requires Before(from, to)
    ensures Entry(Opened(days, from, to), day, [], Show)
            == if day in days then [DayName(day) + ": " + Clock(Gap(from, to, day))] else []
  {
    hide FreeSlots, Opened, Clock, DayName;
    OpenSlots(days, from, to, day);
    var slots := [Gap(from, to, day)];
    assert slots[1..] == [] && Clocks(slots) == [Clock(slots[0])];
  }

  lemma FreeWeek(days: seq<Day>, from: Time, to: Time)
    requires Before(from, to)
    ensures Entries(Opened(days, from, to), WEEK, [], Show)
            == (if MONDAY in days then ["MONDAY: " + Clock(Gap(from, to, MONDAY))] else [])
               + (if TUESDAY in days then ["TUESDAY: " + Clock(Gap(from, to, TUESDAY))] else [])
               + (if WEDNESDAY in days then ["WEDNESDAY: " + Clock(Gap(from, to, WEDNESDAY))] else [])
               + (if THURSDAY in days then ["THURSDAY: " + Clock(Gap(from, to, THURSDAY))] else [])
               + (if FRIDAY in days then ["FRIDAY: " + Clock(Gap(from, to, FRIDAY))] else [])
               + (if SATURDAY in days then ["SATURDAY: " + Clock(Gap(from, to, SATURDAY))] else [])
               + (if SUNDAY in days then ["SUNDAY: " + Clock(Gap(from, to, SUNDAY))] else [])
  {
    hide Entries, Entry, Opened, Clock, Show;
    SevenEntries(Opened(days, from, to));
    forall day: Day
      ensures Entry(Opened(days, from, to), day, [], Show)
              == if day in days then [DayName(day) + ": " + Clock(Gap(from, to, day))] else []
    {
      FreeEntry(days, from, to, day);
    }
    assert DayName(MONDAY) + ": " == "MONDAY: " && DayName(TUESDAY) + ": " == "TUESDAY: "
        && DayName(WEDNESDAY) + ": " == "WEDNESDAY: " && DayName(THURSDAY) + ": " == "THURSDAY: "
        && DayName(FRIDAY) + ": " == "FRIDAY: " && DayName(SATURDAY) + ": " == "SATURDAY: "
        && DayName(SUNDAY) + ": " == "SUNDAY: ";
  }

  lemma FirstClocks(day: Day)
    ensures Clock(Gap(Time(8, 0), Time(17, 0), day)) == "0800 to 1700"
    ensures Clock(Gap(Time(8, 30), Time(23, 30), day)) == "0830 to 2330"
    ensures Clock(Gap(Time(9, 0), Time(18, 0), day)) == "0900 to 1800"
  {
    hide Pad2;
    FirstTimes();
  }

  lemma FirstWeekday()
    ensures Entries(Opened([MONDAY, TUESDAY, WEDNESDAY], Time(8, 0), Time(17, 0)), WEEK, [], Show)
         == ["MONDAY: 0800 to 1700", "TUESDAY: 0800 to 1700", "WEDNESDAY: 0800 to 1700"]
  {
    hide Entries, Opened, Clock;
    FreeWeek([MONDAY, TUESDAY, WEDNESDAY], Time(8, 0), Time(17, 0));
    FirstClocks(MONDAY);
    FirstClocks(TUESDAY);
    FirstClocks(WEDNESDAY);
    assert "MONDAY: " + "0800 to 1700" == "MONDAY: 0800 to 1700";
    assert "TUESDAY: " + "0800 to 1700" == "TUESDAY: 0800 to 1700";
    assert "WEDNESDAY: " + "0800 to 1700" == "WEDNESDAY: 0800 to 1700";
  }

  lemma SecondWeekday()
    ensures Entries(Opened([WEDNESDAY, THURSDAY, FRIDAY], Time(8, 30), Time(23, 30)), WEEK, [], Show)
         == ["WEDNESDAY: 0830 to 2330", "THURSDAY: 0830 to 2330", "FRIDAY: 0830 to 2330"]
  {
    hide Entries, Opened, Clock;
    FreeWeek([WEDNESDAY, THURSDAY, FRIDAY], Time(8, 30), Time(23, 30));
    FirstClocks(WEDNESDAY);
    FirstClocks(THURSDAY);
    FirstClocks(FRIDAY);
    assert "WEDNESDAY: " + "0830 to 2330" == "WEDNESDAY: 0830 to 2330";
    assert "THURSDAY: " + "0830 to 2330" == "THURSDAY: 0830 to 2330";
    assert "FRIDAY: " + "0830 to 2330" == "FRIDAY: 0830 to 2330";
  }

  lemma Weekend()
    ensures Entries(Opened([SATURDAY, SUNDAY], Time(9, 0), Time(18, 0)), WEEK, [], Show)
         == ["SATURDAY: 0900 to 1800", "SUNDAY: 0900 to 1800"]
  {
    hide Entries, Opened, Clock;
    FreeWeek([SATURDAY, SUNDAY], Time(9, 0), Time(18, 0));
    FirstClocks(SATURDAY);
    FirstClocks(SUNDAY);
    assert "SATURDAY: " + "0900 to 1800" == "SATURDAY: 0900 to 1800";
    assert "SUNDAY: " + "0900 to 1800" == "SUNDAY: 0900 to 1800";
  }

  /** The answer to asking for the availability of a facility on all days. */
  function Availability(name: string, requestID: int32, client: Endpoint, env: Env): (r: seq<string>) {
    hide Execute, INITIAL, QueryData, Parsed;
    assert INITIAL.Shaped() by { InitiallyPlain(); }
    match Execute(INITIAL, RequestMessage(OpCode(READ), requestID, Some(QueryData(name, ""))), client, env)
    case Stopped => []
    case Executed(_, response, _) => Parsed(response.data.value, "")
  }

  lemma FirstAvailability(i: nat, name: string, requestID: int32, client: Endpoint, env: Env)
    requires INITIAL.Shaped() && i < |INITIAL.facilities| && INITIAL.facilities[i].name == name
    requires FacilityIndex(INITIAL.facilities, name) == i
    requires '\n' !in name && ',' !in name && name != "" && name != "ALL"
    ensures Availability(name, requestID, client, env)
         == ["Facility Availability", "Facility: " + name] + Entries(INITIAL.facilities[i].calendar, WEEK, [], Show)
  {
    hide Execute, INITIAL, Entries, PlainCalendar, PlainDays, QueryData, Parsed;
    InitiallyPlain();
    PlainCalendarShows(INITIAL.facilities[i].calendar, []);
    QueryDisplays(INITIAL, name, [], requestID, client, env);
    assert Join(DayNames([]), ',') == "";
  }

  lemma FirstFacilities()
    ensures INITIAL.Shaped() && |INITIAL.facilities| == 3
    ensures INITIAL.facilities[0].name == "Weekday1" && INITIAL.facilities[1].name == "Weekday2"
         && INITIAL.facilities[2].name == "Weekends"
    ensures FacilityIndex(INITIAL.facilities, "Weekday1") == 0 && FacilityIndex(INITIAL.facilities, "Weekday2") == 1
         && FacilityIndex(INITIAL.facilities, "Weekends") == 2
    ensures INITIAL.facilities[0].calendar == Opened([MONDAY, TUESDAY, WEDNESDAY], Time(8, 0), Time(17, 0))
    ensures INITIAL.facilities[1].calendar == Opened([WEDNESDAY, THURSDAY, FRIDAY], Time(8, 30), Time(23, 30))
    ensures INITIAL.facilities[2].calendar == Opened([SATURDAY, SUNDAY], Time(9, 0), Time(18, 0))
  {
    hide Opened;
    assert "Weekday1"[7] != "Weekday2"[7] && "Weekday1"[4] != "Weekends"[4] && "Weekday2"[4] != "Weekends"[4];
    assert FacilityIndex(INITIAL.facilities, "Weekday2") != 0;
    assert FacilityIndex(INITIAL.facilities, "Weekends") != 0 && FacilityIndex(INITIAL.facilities, "Weekends") != 1;
  }

  /** When each facility is open, as a client sees it. */
  lemma FirstHours(requestID: int32, client: Endpoint, env: Env)
    ensures Availability("Weekday1", requestID, client, env)
         == ["Facility Availability", "Facility: Weekday1",
             "MONDAY: 0800 to 1700", "TUESDAY: 0800 to 1700", "WEDNESDAY: 0800 to 1700"]
    ensures Availability("Weekday2", requestID, client, env)
         == ["Facility Availability", "Facility: Weekday2",
             "WEDNESDAY: 0830 to 2330", "THURSDAY: 0830 to 2330", "FRIDAY: 0830 to 2330"]
    ensures Availability("Weekends", requestID, client, env)
         == ["Facility Availability", "Facility: Weekends", "SATURDAY: 0900 to 1800", "SUNDAY: 0900 to 1800"]
  {
    hide Availability, INITIAL, Entries, Opened;
    FirstFacilities();
    FirstWeekday();
    SecondWeekday();
    Weekend();
    FirstAvailability(0, "Weekday1", requestID, client, env);
    FirstAvailability(1, "Weekday2", requestID, client, env);
    FirstAvailability(2, "Weekends", requestID, client, env);
    assert "Facility: " + "Weekday1" == "Facility: Weekday1" && "Facility: " + "Weekday2" == "Facility: Weekday2"
        && "Facility: " + "Weekends" == "Facility: Weekends";
  }
}
