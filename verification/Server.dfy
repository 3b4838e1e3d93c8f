/** The server as an object: facilities, monitors and history updated in place by one request
    after the other. Every method is proved against the functions of ServerModel. */
module Server {
  import opened Basics
  import opened TimeSlots
  import opened Bookings
  import opened Availabilities
  import opened Messages
  import opened Text
  import opened Searching
  import opened ServerModel
  import opened Services
  import opened Stopping
  import opened Primitives
  import opened ObjectGraph
  import opened JavaCodec
  import opened JavaSerializer
  import opened JavaDeserializer
  import opened Network
  import opened InitialState

  class RatingSum {
    var totalRatingSum: real
    var numberOfRatings: nat
    var averageRating: real

    function View(): Rating
      reads this
    {
      Rating(totalRatingSum, numberOfRatings, averageRating)
    }

    constructor ()
      ensures View() == Rating(0.0, 0, 0.0)
    {
      totalRatingSum, numberOfRatings, averageRating := 0.0, 0, 0.0;
    }

    method AddRating(rating: real)
      modifies this
      ensures View() == ServerModel.AddRating(old(View()), rating)
      ensures totalRatingSum == old(totalRatingSum) + rating && numberOfRatings == old(numberOfRatings) + 1
      ensures averageRating * (numberOfRatings as real) == totalRatingSum
    {
      totalRatingSum := totalRatingSum + rating;
      numberOfRatings := numberOfRatings + 1;
      averageRating := totalRatingSum / (numberOfRatings as real);
    }
  }

  class FacilityObject {
    const name: string
    const availability: Availability
    const rating: RatingSum

    ghost function Repr(): set<object> { {rating} + availability.Repr() }

    ghost predicate Valid() { availability.Valid() }

    ghost function View(): (f: Facility)
      reads Repr()
      requires Valid()
      ensures f.name == name && f.calendar.Shaped()
    {
      Facility(name, availability.View(), rating.View())
    }

    constructor (name: string, availability: Availability)
      requires availability.Valid()
      ensures this.name == name && this.availability == availability && fresh(rating)
      ensures Valid() && View() == Facility(name, availability.View(), Rating(0.0, 0, 0.0))
    {
      this.name, this.availability := name, availability;
      rating := new RatingSum();
    }
  }

  method FormatSlots(slots: seq<TimeSlot>) returns (text: string)
    ensures text == SlotsText(slots)
  {
    hide SlotText;
    text := "";
    for k := 0 to |slots|
      invariant text == SlotsText(slots[..k])
    {
      SlotsTextStep(slots[..k], slots[k]);
      assert slots[..k + 1] == slots[..k] + [slots[k]];
      text := text + SlotText(slots[k]) + ",";
    }
    assert slots[..|slots|] == slots;
  }

  /** The line for one day. */
  method FormatDay(availability: Availability, day: Day, days: set<Day>) returns (line: string)
    requires availability.Valid()
    ensures line == DayText(availability.View(), day, days)
  {
    hide SlotsText, FreeSlots, DayName;
    line := "";
    if days != {} && day !in days {
      return;
    }
    var timeslots := availability.GetAvailableTimeSlots(day);
    if timeslots != [] {
      label Before:
      var slots := FormatSlots(timeslots);
      assert forall o :: o in availability.Repr() ==> unchanged@Before(o);
      line := DayName(day) + ":" + slots + "\n";
    }
  }

  method FormatDays(availability: Availability, days: set<Day>) returns (lines: string)
    requires availability.Valid()
    ensures lines == DaysText(availability.View(), WEEK, days)
  {
    hide DayText, DaysText;
    ghost var c := availability.View();
    lines := "";
    DaysTextNone(c, days);
    assert WEEK[..0] == [];
    for k := 0 to 7
      invariant c == availability.View() && lines == DaysText(c, WEEK[..k], days)
    {
      DaysTextStep(c, WEEK[..k], WEEK[k], days);
      assert WEEK[..k + 1] == WEEK[..k] + [WEEK[k]];
      label Before:
      var line := FormatDay(availability, WEEK[k], days);
      assert forall o :: o in availability.Repr() ==> unchanged@Before(o);
      lines := lines + line;
    }
    assert WEEK[..7] == WEEK;
  }

  ghost predicate Apart(f: FacilityObject, g: FacilityObject) { f.Repr() !! g.Repr() }

  /** Everything that belongs to the facilities. */
  ghost function Footprint(fs: seq<FacilityObject>): set<object> { set i, o | 0 <= i < |fs| && o in fs[i].Repr() :: o }

  /** No two facilities share a calendar or a rating. */
  ghost predicate Separate(fs: seq<FacilityObject>) {
    && (forall i :: 0 <= i < |fs| ==> fs[i].Valid())
    && (forall i, j :: 0 <= i < j < |fs| ==> Apart(fs[i], fs[j]))
  }

  ghost function ViewsOf(fs: seq<FacilityObject>): (views: seq<Facility>)
    reads Footprint(fs)
    requires Separate(fs)
    ensures |views| == |fs| && forall i :: 0 <= i < |fs| ==> views[i] == fs[i].View()
  {
    seq(|fs|, i requires 0 <= i < |fs| reads Footprint(fs) requires Separate(fs) => fs[i].View())
  }

  method OpeningHours(openDays: seq<Day>, startHour: int, startMinute: int, endHour: int, endMinute: int)
    returns (availability: Availability)
    ensures availability.Valid() && fresh(availability.Repr())
    ensures availability.View() == Opened(openDays, Time(startHour, startMinute), Time(endHour, endMinute))
  {
    availability := new Availability();
    for k := 0 to |openDays|
      invariant availability.Valid() && fresh(availability.Repr())
      invariant availability.View() == Opened(openDays[..k], Time(startHour, startMinute), Time(endHour, endMinute))
    {
      assert openDays[..k + 1][..k] == openDays[..k];
      availability.SetAvaOfDay(openDays[k], true, startHour, startMinute, endHour, endMinute);
    }
    assert openDays[..|openDays|] == openDays;
  }

  /** A new facility at the end of the list. */
  method NewFacility(facilities: seq<FacilityObject>, name: string, openDays: seq<Day>,
                     startHour: int, startMinute: int, endHour: int, endMinute: int)
    returns (extended: seq<FacilityObject>)
    requires Separate(facilities)
    ensures Separate(extended) && fresh(Footprint(extended) - Footprint(facilities))
    ensures ViewsOf(extended)
            == old(ViewsOf(facilities))
               + [Facility(name, Opened(openDays, Time(startHour, startMinute), Time(endHour, endMinute)),
                   Rating(0.0, 0, 0.0))]
  {
    hide Opened, Footprint, Separate, ViewsOf;
    ghost var before := ViewsOf(facilities);
    AllExist(facilities);
    var availability := OpeningHours(openDays, startHour, startMinute, endHour, endMinute);
    var facility := new FacilityObject(name, availability);
    assert ViewsOf(facilities) == before;
    Extended(facilities, facility);
    extended := facilities + [facility];
  }

  lemma Extended(fs: seq<FacilityObject>, f: FacilityObject)
    requires Separate(fs) && f.Valid() && f.Repr() !! Footprint(fs)
    ensures Separate(fs + [f]) && Footprint(fs + [f]) == Footprint(fs) + f.Repr()
    ensures ViewsOf(fs + [f]) == ViewsOf(fs) + [f.View()]
  {
    var gs := fs + [f];
    assert forall i, o :: 0 <= i < |fs| && o in fs[i].Repr() ==> o in Footprint(fs);
    assert Separate(gs) by {
      forall i, j | 0 <= i < j < |gs| ensures Apart(gs[i], gs[j]) {
        if j == |fs| {
          assert gs[i] == fs[i];
        }
      }
    }
    forall o ensures o in Footprint(gs) <==> o in Footprint(fs) || o in f.Repr() {
      if o in f.Repr() {
        assert o in gs[|fs|].Repr();
      }
      if o in Footprint(fs) {
        var i :| 0 <= i < |fs| && o in fs[i].Repr();
        assert o in gs[i].Repr();
      }
    }
  }

  method CreateFacilities() returns (facilities: seq<FacilityObject>)
    ensures Separate(facilities) && fresh(Footprint(facilities)) && ViewsOf(facilities) == INITIAL.facilities
  {
    hide Opened, Separate, ViewsOf, Footprint, INITIAL;
    facilities := [];
    NoFacilities();
    facilities := NewFacility(facilities, "Weekday1", [MONDAY, TUESDAY, WEDNESDAY], 8, 0, 17, 0);
    facilities := NewFacility(facilities, "Weekday2", [WEDNESDAY, THURSDAY, FRIDAY], 8, 30, 23, 30);
    facilities := NewFacility(facilities, "Weekends", [SATURDAY, SUNDAY], 9, 0, 18, 0);
    InitialIs(ViewsOf(facilities));
  }

  lemma AllExist(fs: seq<FacilityObject>)
    ensures forall o :: o in Footprint(fs) ==> allocated(o)
  {
  }

  lemma OneOf(fs: seq<FacilityObject>, i: nat)
    requires Separate(fs) && i < |fs|
    ensures fs[i].Valid() && ViewsOf(fs)[i] == fs[i].View() && fs[i].Repr() <= Footprint(fs)
  {
  }

  lemma Others(fs: seq<FacilityObject>, i: nat)
    requires Separate(fs) && i < |fs|
    ensures forall j :: 0 <= j < |fs| && j != i ==> fs[j].Valid() && fs[j].Repr() !! fs[i].Repr()
  {
    forall j | 0 <= j < |fs| && j != i ensures fs[j].Valid() && fs[j].Repr() !! fs[i].Repr() {
      assert if j < i then Apart(fs[j], fs[i]) else Apart(fs[i], fs[j]);
    }
  }

  /** One facility has changed, the others have not. */
  lemma OneChanged(fs: seq<FacilityObject>, before: seq<Facility>, i: nat)
    requires Separate(fs) && i < |fs| == |before|
    requires forall j :: 0 <= j < |fs| && j != i ==> fs[j].View() == before[j]
    ensures ViewsOf(fs) == before[i := fs[i].View()]
  {
  }

  lemma NoFacilities()
    ensures Separate([]) && Footprint([]) == {} && ViewsOf([]) == []
  {
  }

  class Server {
    const facilities: seq<FacilityObject>
    const facilityMonitorService: MonitorService
    const requestHistory: RequestHistory
    const checkHistory: bool
    var lastUpdatedFacility: Option<string>

    ghost function Repr(): set<object> { Footprint(facilities) }

    ghost predicate Valid() {
      Separate(facilities) && this !in Repr() && facilityMonitorService !in Repr() && requestHistory !in Repr()
    }

    ghost function View(): (core: Core)
      reads Repr(), facilityMonitorService
      requires Valid()
      ensures core.Shaped()
    {
      Core(ViewsOf(facilities), facilityMonitorService.monitors)
    }

    ghost function State(): ServerState
      reads Repr(), facilityMonitorService, requestHistory
      requires Valid()
    {
      ServerState(View(), requestHistory.requestHistory)
    }

    /** The state the program starts in. */
    constructor (checkHistory: bool)
      ensures Valid() && State() == ServerState(INITIAL, []) && this.checkHistory == checkHistory
      ensures fresh(Repr()) && fresh(facilityMonitorService) && fresh(requestHistory)
    {
      hide Footprint, Separate, ViewsOf, INITIAL;
      var created := CreateFacilities();
      AllExist(created);
      facilities := created;
      facilityMonitorService := new MonitorService();
      requestHistory := new RequestHistory();
      this.checkHistory := checkHistory;
      lastUpdatedFacility := None;
      new;
      NoMonitors();
    }

    // ---------- looking up ----------

    method GetFacility(name: string) returns (facility: FacilityObject?, ghost i: nat)
      requires Valid()
      ensures i == FacilityIndex(View().facilities, name)
      ensures var k := FacilityIndex(View().facilities, name);
              if k == |facilities| then facility == null else facility == facilities[k]
    {
      ghost var fs := ViewsOf(facilities);
      for k := 0 to |facilities|
        invariant forall j :: 0 <= j < k ==> fs[j].name != name
      {
        if facilities[k].name == name {
          FirstFacility(fs, name, k);
          return facilities[k], k;
        }
      }
      FirstFacility(fs, name, |fs|);
      return null, |facilities|;
    }

    method FormatFacilityAvailability(facilityName: string, days: set<Day>) returns (text: string)
      requires Valid()
      ensures text == AvailabilityText(View(), facilityName, days)
    {
      hide DaysText, AvailabilityText, Titled, ErrorText, Footprint, Separate, ViewsOf;
      AllExist(facilities);
      var requestedFacility, i := GetFacility(facilityName);
      ghost var core := View();
      TextOf(core, facilityName, days);
      if requestedFacility == null {
        return ErrorText("Facility not found");
      }
      OneOf(facilities, i);
      AllExist(facilities);
      var availableTimeslots := FormatDays(requestedFacility.availability, days);
      assert ViewsOf(facilities) == core.facilities;
      text := Titled(facilityName, availableTimeslots);
    }

    // ---------- READ ----------

    method AllNames() returns (facilityNames: string)
      requires Valid()
      ensures facilityNames == FacilityNames(View().facilities)
    {
      hide FacilityNames;
      ghost var fs := ViewsOf(facilities);
      facilityNames := "";
      NoNames();
      assert fs[..0] == [];
      for k := 0 to |facilities|
        invariant fs == ViewsOf(facilities) && facilityNames == FacilityNames(fs[..k])
      {
        NamesStep(fs[..k], fs[k]);
        assert fs[..k + 1] == fs[..k] + [fs[k]];
        facilityNames := facilityNames + facilities[k].name + ",";
      }
      assert fs[..|fs|] == fs;
    }

    method FindBooking(bookingID: string) returns (answer: string)
      requires Valid()
      ensures answer == BookingAnswer(View().facilities, bookingID)
    {
      hide BookingText, BookingAnswer, BookingInfo, Footprint, Separate, ViewsOf;
      ghost var fs := ViewsOf(facilities);
      assert fs[0..] == fs;
      for k := 0 to |facilities|
        invariant fs == ViewsOf(facilities)
        invariant BookingAnswer(fs, bookingID) == BookingAnswer(fs[k..], bookingID)
      {
        OneOf(facilities, k);
        AllExist(facilities);
        AnswerStep(fs, k, bookingID);
        var bookingInfo := facilities[k].availability.GetBookingInfo(bookingID);
        if bookingInfo.Some? {
          return BookingText(bookingInfo.value, facilities[k].name);
        }
      }
      AnswerEnd(fs, bookingID);
      return ErrorText("Booking not found");
    }

    /** The days named, or nothing if one of the names is no day and valueOf throws. */
    method ReadDays(names: seq<string>) returns (days: Option<set<Day>>)
      ensures days == WantedDays(names)
    {
      hide ParseDay;
      var found: set<Day> := {};
      assert names[0..] == names;
      assert forall s: set<Day> :: {} + s == s;
      for k := 0 to |names|
        invariant WantedDays(names[k..]).Some? ==> WantedDays(names) == Some(found + WantedDays(names[k..]).value)
        invariant WantedDays(names[k..]).None? ==> WantedDays(names).None?
      {
        assert names[k..][0] == names[k] && names[k..][1..] == names[k + 1..];
        var day := ParseDay(names[k]);
        if day.None? {
          return None;
        }
        assert forall s: set<Day> :: found + ({day.value} + s) == found + {day.value} + s;
        found := found + {day.value};
      }
      assert found + {} == found;
      return Some(found);
    }

    method Read(m: RequestMessage) returns (response: Option<RequestMessage>)
      requires Valid()
      ensures match ExecuteRead(View(), m)
              case Stopped => response == None
              case Executed(_, r, _) => response == Some(r)
      ensures response == None <==> BadRead(m.data)
    {
      hide AvailabilityText, BookingAnswer, FacilityNames, JavaSplit, WantedDays, Tenths, BadRead;
      ReadStopsIff(View(), m);
      AllExist(facilities);
      if m.data.None? {
        return None;
      }
      var requestString := JavaSplit(m.data.value);
      if |requestString| == 1 {
        return Some(Reply(READ, m, ErrorText("Invalid request format")));
      } else if |requestString| == 0 {
        return None;
      }
      if requestString[0] == "facility" {
        if requestString[1] == "ALL" {
          var facilityNames := AllNames();
          return Some(Reply(READ, m, "status:SUCCESS\nfacilityNames:" + facilityNames));
        } else {
          var days := ReadDays(requestString[2..]);
          if days.None? {
            return None;
          }
          var text := FormatFacilityAvailability(requestString[1], days.value);
          return Some(Reply(READ, m, text));
        }
      } else if requestString[0] == "booking" {
        var answer := FindBooking(requestString[1]);
        return Some(Reply(READ, m, answer));
      } else if requestString[0] == "rating" {
        var facility, _ := GetFacility(requestString[1]);
        if facility != null {
          return Some(Reply(READ, m, "status:SUCCESS\nfacility:" + facility.name + "\nrating:"
                                     + Tenths(facility.rating.averageRating)));
        } else {
          return Some(Reply(READ, m, ErrorText("Facility not found")));
        }
      } else {
        return Some(Reply(READ, m, ErrorText("Invalid request format")));
      }
    }

    // ---------- changing one facility ----------

    method StoreBooking(facility: FacilityObject, ghost i: nat, user: string, slot: TimeSlot, randomUUID: string)
      returns (confirmationID: string)
      requires Valid() && i < |facilities| && facility == facilities[i]
      modifies Repr()
      ensures confirmationID == randomUUID
      ensures View() == SetCalendar(old(View()), i, Book(old(View()).facilities[i].calendar, randomUUID, user, slot))
    {
      hide Footprint, Separate, ViewsOf, Book;
      OneOf(facilities, i);
      ghost var before := ViewsOf(facilities);
      Others(facilities, i);
      confirmationID := facility.availability.BookTimeSlot(user, slot, randomUUID);
      OneChanged(facilities, before, i);
    }

    method DropBooking(facility: FacilityObject, ghost i: nat, id: string, user: string) returns (removed: string)
      requires Valid() && i < |facilities| && facility == facilities[i]
      modifies Repr()
      ensures removed == RemovedID(old(View()).facilities[i].calendar, id, user)
      ensures View() == SetCalendar(old(View()), i, Remove(old(View()).facilities[i].calendar, id, user))
    {
      hide Footprint, Separate, ViewsOf, Remove, Has;
      OneOf(facilities, i);
      ghost var before := ViewsOf(facilities);
      Others(facilities, i);
      var confirmationID := facility.availability.RemoveTimeSlot(id, user);
      OneChanged(facilities, before, i);
      removed := if confirmationID.Some? then confirmationID.value else "null";
    }

    method StoreRating(facility: FacilityObject, ghost i: nat, rating: real)
      requires Valid() && i < |facilities| && facility == facilities[i]
      modifies Repr()
      ensures var f := old(View()).facilities[i];
              View() == old(View()).(facilities := old(View()).facilities[i :=
                      f.(rating := ServerModel.AddRating(f.rating, rating))])
    {
      hide Footprint, Separate, ViewsOf, ServerModel.AddRating;
      OneOf(facilities, i);
      ghost var before := ViewsOf(facilities);
      Others(facilities, i);
      facility.rating.AddRating(rating);
      OneChanged(facilities, before, i);
    }

    // ---------- WRITE ----------

    /** None: the text does not parse and the parser throws. */
    method BookFacility(request: RequestMessage, client: Endpoint, env: Env) returns (response: Option<RequestMessage>)
      requires Valid() && lastUpdatedFacility == None
      modifies Repr(), `lastUpdatedFacility
      ensures if request.data.None? || ParseBooking(request.data.value).None?
              then response == None && View() == old(View()) && lastUpdatedFacility == None
              else response.Some? && Executed(View(), response.value, lastUpdatedFacility)
                                     == ExecuteWrite(old(View()), request, client, env)
    {
      hide Footprint, Separate, ViewsOf, ParseBooking, BookedText, ErrorText, IsAvailable, Book, UserInfo;
      if request.data.None? || ParseBooking(request.data.value).None? {
        return None;
      }
      var booking := ParseBooking(request.data.value).value;
      AllExist(facilities);
      var facility, i := GetFacility(booking.facilityName);
      if facility == null {
        return Some(Reply(WRITE, request, ErrorText("Facility not found")));
      }
      lastUpdatedFacility := Some(booking.facilityName);
      OneOf(facilities, i);
      AllExist(facilities);
      var available := facility.availability.IsAvailable(booking.slot);
      if !available {
        return Some(Reply(WRITE, request, ErrorText("Facility not available at the requested time")));
      }
      AllExist(facilities);
      var confirmationID := StoreBooking(facility, i, UserInfo(client), booking.slot, env.uuid);
      return Some(Reply(WRITE, request, BookedText(confirmationID, UserInfo(client), booking.facilityName,
                                                  booking.slot)));
    }

    // ---------- UPDATE ----------

    method UpdateBooking(request: RequestMessage, booking: BookingDetails, client: Endpoint, env: Env)
      returns (response: RequestMessage)
      requires Valid() && lastUpdatedFacility == None
      modifies Repr(), `lastUpdatedFacility
      ensures Executed(View(), response, lastUpdatedFacility)
              == ServerModel.UpdateBooking(old(View()), request, booking, client, env)
    {
      hide Footprint, Separate, ViewsOf, UpdatedText, ErrorText, IsAvailable, Book, Remove, Has, UserInfo, SetCalendar,
           ServerModel.UpdateBooking, RemovedID;
      AllExist(facilities);
      ghost var core := View();
      UpdateSteps(core, request, booking, client, env);
      var facility, i := GetFacility(booking.facilityName);
      assert View() == core;
      if facility == null {
        return Reply(UPDATE, request, ErrorText("Facility not found"));
      }
      lastUpdatedFacility := Some(booking.facilityName);
      OneOf(facilities, i);
      AllExist(facilities);
      var available := facility.availability.IsAvailable(booking.slot);
      assert View() == core;
      if !available {
        return Reply(WRITE, request, ErrorText("Facility not available at the requested time"));
      }
      var deleted := DropBooking(facility, i, booking.previous, UserInfo(client));
      var confirmationID := StoreBooking(facility, i, UserInfo(client), booking.slot, env.uuid);
      response := Reply(UPDATE, request, UpdatedText(deleted, confirmationID, UserInfo(client), booking.facilityName,
                                                     booking.slot));
    }

    method AddRating(request: RequestMessage, requestString: seq<string>, client: Endpoint, env: Env)
      returns (response: Option<RequestMessage>)
      requires Valid()
      modifies Repr()
      ensures Executed(View(), if response.Some? then response.value else
                       Reply(UPDATE, request, ErrorText(env.exceptionText)),
                       None)
              == RateFacility(old(View()), request, requestString, client, env)
    {
      hide Footprint, Separate, ViewsOf, RatedText, ErrorText, ServerModel.AddRating, UserInfo;
      if |requestString| < 3 {
        return None;
      }
      AllExist(facilities);
      var facility, i := GetFacility(requestString[1]);
      if env.parsedRating.None? || facility == null {
        return None;
      }
      AllExist(facilities);
      StoreRating(facility, i, env.parsedRating.value);
      response := Some(Reply(UPDATE, request, RatedText(UserInfo(client), requestString[1], env.parsedRating.value)));
    }

    method Update(request: RequestMessage, client: Endpoint, env: Env) returns (response: RequestMessage)
      requires Valid() && lastUpdatedFacility == None
      modifies Repr(), `lastUpdatedFacility
      ensures Executed(View(), response, lastUpdatedFacility) == ExecuteUpdate(old(View()), request, client, env)
    {
      hide Footprint, Separate, ViewsOf, JavaSplit, ParseUpdate, RateFacility, ServerModel.UpdateBooking, ErrorText;
      if request.data.None? || JavaSplit(request.data.value) == [] {
        return Reply(UPDATE, request, ErrorText(env.exceptionText));
      }
      var requestString := JavaSplit(request.data.value);
      if requestString[0] == "booking" {
        match ParseUpdate(request.data.value, env)
        case BadUpdate(message) => response := Reply(UPDATE, request, ErrorText(message));
        case GoodUpdate(booking) => response := UpdateBooking(request, booking, client, env);
      } else if requestString[0] == "rating" {
        var rated := AddRating(request, requestString, client, env);
        response := if rated.Some? then rated.value else Reply(UPDATE, request, ErrorText(env.exceptionText));
      } else {
        response := Reply(UPDATE, request, ErrorText("Invalid update type"));
      }
    }

    // ---------- DELETE ----------

    /** None: the text has no two parts and the access throws. */
    method DeleteBooking(request: RequestMessage, client: Endpoint, env: Env) returns (response: Option<RequestMessage>)
      requires Valid() && lastUpdatedFacility == None
      modifies Repr(), `lastUpdatedFacility
      ensures Executed(View(), if response.Some? then response.value else
                       Reply(DELETE, request, ErrorText(env.exceptionText)),
                       lastUpdatedFacility)
              == ExecuteDelete(old(View()), request, client, env)
    {
      hide Footprint, Separate, ViewsOf, JavaSplit, ErrorText, Remove, Has, UserInfo;
      if request.data.None? {
        return None;
      }
      var parts := JavaSplit(request.data.value);
      if |parts| < 2 {
        return None;
      }
      AllExist(facilities);
      var facility, i := GetFacility(parts[1]);
      if facility == null {
        return Some(Reply(DELETE, request, ErrorText("Facility not found")));
      }
      lastUpdatedFacility := Some(parts[1]);
      AllExist(facilities);
      var confirmationID := DropBooking(facility, i, parts[0], UserInfo(client));
      response := Some(Reply(DELETE, request,
                             "status:SUCCESS\nbookingID:" + confirmationID + "\nuser:" + UserInfo(client)));
    }

    // ---------- MONITOR ----------

    method RegisterMonitor(request: RequestMessage, client: Endpoint, env: Env) returns (response: RequestMessage)
      requires Valid()
      modifies facilityMonitorService
      ensures Executed(View(), response, None) == ExecuteMonitor(old(View()), request, client, env)
    {
      hide Footprint, Separate, ViewsOf, JavaSplit, ErrorText, ParseInt, PrintInt;
      if request.data.None? || JavaSplit(request.data.value) == [] {
        return Reply(MONITOR, request, ErrorText(env.exceptionText));
      }
      var monitorRequestString := JavaSplit(request.data.value);
      if |monitorRequestString| == 1 {
        return Reply(READ, request, ErrorText("Invalid request format"));
      }
      if monitorRequestString[0] == "register" {
        if |monitorRequestString| < 3 || ParseInt(monitorRequestString[2]).None? {
          return Reply(MONITOR, request, ErrorText(env.exceptionText));
        }
        AllExist(facilities);
        var facilityName, monitorInterval := monitorRequestString[1], ParseInt(monitorRequestString[2]).value;
        var facility, i := GetFacility(facilityName);
        if facility == null {
          return Reply(READ, request, ErrorText("Invalid facilityName provided"));
        }
        AllExist(facilities);
        facilityMonitorService.RegisterMonitor(Monitor(facilityName, request.requestID, client,
                                                      env.now, monitorInterval));
        response := Reply(MONITOR, request,
                          "status:SUCCESS\nfacility:" + facilityName + "\ninterval:" + PrintInt(monitorInterval));
      } else {
        response := Reply(MONITOR, request, ErrorText("Invalid request format"));
      }
    }

    // ---------- any request ----------

    /** The switch over the operation. None: an exception nobody catches. */
    method Dispatch(request: RequestMessage, client: Endpoint, env: Env) returns (response: Option<RequestMessage>)
      requires Valid() && lastUpdatedFacility == None
      modifies Repr(), `lastUpdatedFacility, facilityMonitorService
      ensures match Execute(old(View()), request, client, env)
              case Stopped => response == None && View() == old(View())
              case Executed(core, r, updated) => response == Some(r) && View() == core && lastUpdatedFacility == updated
    {
      hide Footprint, Separate, ViewsOf, ExecuteRead, ExecuteWrite, ExecuteUpdate, ExecuteDelete, ExecuteMonitor,
           ErrorText,
           ParseBooking;
      AllExist(facilities);
      match FromInt(request.requestType)
      case READ => response := Read(request);
      case WRITE =>
        WriteUnparsed(View(), request, client, env);
        response := BookFacility(request, client, env);
        if response.None? {
          response := Some(Reply(WRITE, request, ErrorText(env.exceptionText)));
        }
      case UPDATE =>
        var updated := Update(request, client, env);
        response := Some(updated);
      case DELETE =>
        response := DeleteBooking(request, client, env);
        if response.None? {
          response := Some(Reply(DELETE, request, ErrorText(env.exceptionText)));
        }
      case MONITOR =>
        var registered := RegisterMonitor(request, client, env);
        response := Some(registered);
      case _ => response := Some(Reply(NONE, request, ErrorText("Unknown operation")));
    }

    /** After an executed request: tell the monitors of the facility it touched. */
    method Announce(request: RequestMessage, now: int) returns (notices: seq<Notice>)
      requires Valid()
      modifies facilityMonitorService
      ensures var core := old(View());
              if lastUpdatedFacility.None? || !Notifies(request) then notices == [] && View() == core
              else
                var core' := core.(monitors := Unexpired(core.monitors, now));
                var text := AvailabilityText(core', lastUpdatedFacility.value, {});
                View() == core'
                && notices == if text == "" || Contains(text, "status:ERROR") then []
                              else NoticesFor(core'.monitors, lastUpdatedFacility.value, text)
    {
      hide Footprint, Separate, ViewsOf, AvailabilityText, Contains, NoticesFor, Unexpired;
      notices := [];
      AllExist(facilities);
      if lastUpdatedFacility.Some? && Notifies(request) {
        var _ := facilityMonitorService.RemoveExpiredMonitors(now);
        ghost var core := View();
        AllExist(facilities);
        var notification := FormatFacilityAvailability(lastUpdatedFacility.value, {});
        assert View() == core;
        if !(notification == "" || Contains(notification, "status:ERROR")) {
          notices := facilityMonitorService.NotifyAll(lastUpdatedFacility.value, notification);
          assert View() == core;
        }
      }
    }

    /** What the datagram's object graph is as a request; None for an exception. */
    method ReadMessage(receivedData: Bytes) returns (m: Option<RequestMessage>)
      ensures m == DecodeMessage(receivedData)
    {
      hide JavaDecode;
      var deserializer := new Deserializer();
      var obj := deserializer.Deserialize(CLASSES, receivedData);
      if obj.Error? {
        return None;
      }
      var root, heap := obj.value, deserializer.heap;
      if root.Ref? && root.id < |heap| && heap[root.id].cls == MESSAGE {
        return MessageOf(heap[root.id]);
      }
      return None;
    }

    /** One datagram. None as the response: the exception ends the server. */
    method HandleRequest(receivedData: Bytes, client: Endpoint, env: Env)
      returns (response: Option<RequestMessage>, notices: seq<Notice>)
      requires Valid()
      modifies this, Repr(), facilityMonitorService, requestHistory
      ensures match Handle(old(State()), checkHistory, DecodeMessage(receivedData), client, env)
              case Halted => response == None && State() == old(State())
              case Handled(st, r, ns) => response == Some(r) && State() == st && notices == ns
    {
      hide Footprint, Separate, ViewsOf, Execute, DecodeMessage, AvailabilityText, Contains, NoticesFor, Unexpired;
      lastUpdatedFacility, notices := None, [];
      AllExist(facilities);
      var requestMessage := ReadMessage(receivedData);
      AllExist(facilities);
      if requestMessage.None? {
        return Some(BAD_REQUEST), [];
      }
      var request := requestMessage.value;
      if FromInt(request.requestType) == ECHO {
        return Some(request), [];
      }
      if checkHistory {
        var prevRequest := requestHistory.ContainsRequest(request.requestID, client);
        assert State() == old(State());
        if prevRequest.Some? {
          return Some(prevRequest.value.response), [];
        }
      }
      AllExist(facilities);
      response := Dispatch(request, client, env);
      if response.None? {
        return;
      }
      AllExist(facilities);
      requestHistory.AddRequest(RequestInfo(request, client, response.value));
      AllExist(facilities);
      notices := Announce(request, env.now);
    }

    /** The body of the main loop: one datagram in, at most one reply and some notices out. */
    method Serve(datagram: Bytes, client: Endpoint, env: Env)
      returns (up: bool, reply: Option<Bytes>, notices: seq<Notice>)
      requires Valid()
      modifies this, Repr(), facilityMonitorService, requestHistory
      ensures match Handle(old(State()), checkHistory, DecodeMessage(Arriving(datagram)), client, env)
              case Halted => !up && reply == None && State() == old(State())
              case Handled(st, response, ns) => up && reply == ReplyBytes(response) && State() == st && notices == ns
    {
      hide Footprint, Separate, ViewsOf, Handle, DecodeMessage, ReplyBytes;
      var response;
      response, notices := HandleRequest(Arriving(datagram), client, env);
      if response.None? {
        return false, None, notices;
      }
      AllExist(facilities);
      reply := WriteMessage(response.value);
      up := true;
    }
  }

  /** The datagram of a reply; none when the encoder throws. */
  method WriteMessage(m: RequestMessage) returns (datagram: Option<Bytes>)
    ensures datagram == ReplyBytes(m)
  {
    hide JavaEncode, LegalClasses, LegalHeap;
    if m.data.Some? && !Sized(m.data.value) {
      return None;
    }
    CarriedFits(m);
    var serializer := new Serializer();
    var r := serializer.Serialize(CLASSES, [MessageObject(Carried(m))], Ref(0));
    datagram := if r.Ok? then Some(r.value) else None;
  }

  lemma CarriedFits(m: RequestMessage)
    requires m.data.Some? ==> Sized(m.data.value)
    ensures Sendable(Carried(m)) && LegalClasses(CLASSES) && LegalHeap(CLASSES, [MessageObject(Carried(m))])
    ensures ObjectOf([MessageObject(Carried(m))], Ref(0))
  {
    MessageLegal(Carried(m));
  }

  lemma WriteUnparsed(core: Core, m: RequestMessage, client: Endpoint, env: Env)
    requires core.Shaped()
    ensures m.data.None? || ParseBooking(m.data.value).None? ==>
              ExecuteWrite(core, m, client, env) == Executed(core, Reply(WRITE, m, ErrorText(env.exceptionText)), None)
  {
  }

  // ---------- what the loops need ----------

  function Titled(name: string, availableTimeslots: string): string {
    "status:SUCCESS\nfacility:" + name + "\navailableTimeslots:\n" + availableTimeslots
  }

  /** The update as one removal followed by one booking. */
  lemma UpdateSteps(core: Core, m: RequestMessage, b: BookingDetails, client: Endpoint, env: Env)
    requires core.Shaped()
    ensures var i, user := FacilityIndex(core.facilities, b.facilityName), UserInfo(client);
            var r := ServerModel.UpdateBooking(core, m, b, client, env);
            if i == |core.facilities| then r == Executed(core, Reply(UPDATE, m, ErrorText("Facility not found")), None)
            else if !IsAvailable(core.facilities[i].calendar, b.slot) then
              r == Executed(core, Reply(WRITE, m, ErrorText("Facility not available at the requested time")),
                            Some(b.facilityName))
            else
              var core1 := SetCalendar(core, i, Remove(core.facilities[i].calendar, b.previous, user));
              && i < |core1.facilities| && core1.facilities[i].calendar.Shaped()
              && r == Executed(SetCalendar(core1, i, Book(core1.facilities[i].calendar, env.uuid, user, b.slot)),
                               Reply(UPDATE, m, UpdatedText(RemovedID(core.facilities[i].calendar, b.previous, user),
                                                            env.uuid, user, b.facilityName, b.slot)),
                               Some(b.facilityName))
  {
    hide UpdatedText, ErrorText, IsAvailable, Book, Remove, RemovedID, UserInfo;
    var i := FacilityIndex(core.facilities, b.facilityName);
    if i < |core.facilities| {
      var c1 := Remove(core.facilities[i].calendar, b.previous, UserInfo(client));
      var c2 := Book(c1, env.uuid, UserInfo(client), b.slot);
      assert SetCalendar(SetCalendar(core, i, c1), i, c2) == SetCalendar(core, i, c2);
    }
  }

  lemma InitialIs(fs: seq<Facility>)
    requires |fs| == 3
    requires fs[0]
          == Facility("Weekday1", Opened([MONDAY, TUESDAY, WEDNESDAY], Time(8, 0), Time(17, 0)), Rating(0.0, 0, 0.0))
    requires fs[1]
          == Facility("Weekday2", Opened([WEDNESDAY, THURSDAY, FRIDAY], Time(8, 30), Time(23, 30)), Rating(0.0, 0, 0.0))
    requires fs[2] == Facility("Weekends", Opened([SATURDAY, SUNDAY], Time(9, 0), Time(18, 0)), Rating(0.0, 0, 0.0))
    ensures Core(fs, []) == INITIAL
  {
    hide Opened;
  }

  lemma FirstFacility(fs: seq<Facility>, name: string, i: nat)
    requires i <= |fs| && (i < |fs| ==> fs[i].name == name)
    requires forall j :: 0 <= j < i ==> fs[j].name != name
    ensures FacilityIndex(fs, name) == i
  {
    var k := FacilityIndex(fs, name);
    assert !(i < k) && !(k < i);
  }

  lemma {:induction false} SlotsTextStep(slots: seq<TimeSlot>, slot: TimeSlot)
    ensures SlotsText(slots + [slot]) == SlotsText(slots) + SlotText(slot) + ","
  {
    hide SlotText;
    if slots == [] {
      assert slots + [slot] == [slot];
    } else {
      assert (slots + [slot])[1..] == slots[1..] + [slot];
      SlotsTextStep(slots[1..], slot);
    }
  }

  lemma {:induction false} DaysTextStep(c: Calendar, days: seq<Day>, day: Day, wanted: set<Day>)
    requires c.Shaped()
    ensures DaysText(c, days + [day], wanted) == DaysText(c, days, wanted) + DayText(c, day, wanted)
  {
    hide DayText;
    if days == [] {
      assert days + [day] == [day];
    } else {
      assert (days + [day])[1..] == days[1..] + [day];
      DaysTextStep(c, days[1..], day, wanted);
    }
  }

  lemma DaysTextNone(c: Calendar, wanted: set<Day>)
    requires c.Shaped()
    ensures DaysText(c, [], wanted) == ""
  {
  }

  lemma NoMonitors()
    ensures INITIAL.monitors == []
  {
  }

  lemma NoNames()
    ensures FacilityNames([]) == ""
  {
  }

  lemma TextOf(core: Core, name: string, wanted: set<Day>)
    requires core.Shaped()
    ensures var i := FacilityIndex(core.facilities, name);
            AvailabilityText(core, name, wanted)
            == if i == |core.facilities| then ErrorText("Facility not found")
               else Titled(name, DaysText(core.facilities[i].calendar, WEEK, wanted))
  {
  }

  lemma {:induction false} NamesStep(fs: seq<Facility>, f: Facility)
    ensures FacilityNames(fs + [f]) == FacilityNames(fs) + f.name + ","
  {
    if fs == [] {
      assert fs + [f] == [f];
    } else {
      assert (fs + [f])[1..] == fs[1..] + [f];
      NamesStep(fs[1..], f);
    }
  }

  lemma AnswerStep(fs: seq<Facility>, k: nat, id: string)
    requires k < |fs|
    ensures BookingAnswer(fs[k..], id)
            == match BookingInfo(fs[k].calendar, id)
               case Some(b) => BookingText(b, fs[k].name)
               case None => BookingAnswer(fs[k + 1..], id)
  {
    hide BookingText, BookingInfo;
    assert fs[k..][0] == fs[k] && fs[k..][1..] == fs[k + 1..];
  }

  lemma AnswerEnd(fs: seq<Facility>, id: string)
    ensures BookingAnswer(fs[|fs|..], id) == ErrorText("Booking not found")
  {
  }
}
