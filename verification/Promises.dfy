/** Promises of the interface description the code does not keep in every case, each with the
    exact cases in which it does. */
module Promises {
  import opened Basics
  import opened TimeSlots
  import opened Bookings
  import opened Messages
  import opened Text
  import opened ClientText
  import opened ServerModel
  import opened Effects
  import opened Identifiers
  import opened Repetition
  import opened ShiftBooking
  import opened Shifts
  import opened InitialState

  // ---------- the codes of both programs ----------

  /** The client's enumeration of request types. */
  datatype RequestType = Invalid | ReadRequest | WriteRequest | UpdateRequest | DeleteRequest | MonitorRequest
                       | EchoRequest
  {
    function Code(): int32 {
      match this
      case Invalid => -1
      case ReadRequest => 0
      case WriteRequest => 1
      case UpdateRequest => 2
      case DeleteRequest => 3
      case MonitorRequest => 4
      case EchoRequest => 5
    }

    function Meant(): Operation {
      match this
      case Invalid => NONE
      case ReadRequest => READ
      case WriteRequest => WRITE
      case UpdateRequest => UPDATE
      case DeleteRequest => DELETE
      case MonitorRequest => MONITOR
      case EchoRequest => ECHO
    }
  }

  /** The server takes a code for an operation iff that is the operation's own code, and the
      client's codes are those of the operations they mean. */
  lemma CodesAgree(t: RequestType, code: int32)
    ensures OpCode(t.Meant()) == t.Code() && FromInt(t.Code()) == t.Meant()
    ensures forall op: Operation :: op != NONE ==> (FromInt(code) == op <==> OpCode(op) == code)
    ensures FromInt(code) == NONE <==> !(0 <= code <= 6)
  {
    forall op: Operation | op != NONE ensures FromInt(code) == op <==> OpCode(op) == code {
      match op
      case _ =>
    }
  }

  // ---------- a reply carries the code of the request ----------

  /** A booking update that parses, names a known facility and asks for a slot that is taken. */
  predicate RefusedUpdate(core: Core, m: RequestMessage, env: Env)
    requires core.Shaped()
  {
    FromInt(m.requestType) == UPDATE && Requested(m, env).Some? &&
    var b := Requested(m, env).value;
    var i := FacilityIndex(core.facilities, b.facilityName);
    i < |core.facilities| && !IsAvailable(core.facilities[i].calendar, b.slot)
  }

  /** A registration of one part, or one that is complete but for an unknown facility. */
  predicate MisplacedRegistration(core: Core, m: RequestMessage) {
    FromInt(m.requestType) == MONITOR && m.data.Some? &&
    var parts := JavaSplit(m.data.value);
    || |parts| == 1
    || (|parts| >= 3 && parts[0] == "register" && ParseInt(parts[2]).Some?
        && FacilityIndex(core.facilities, parts[1]) == |core.facilities|)
  }

  /** The codes for which there is no case in the dispatcher, other than that of no operation. */
  predicate UnknownCode(m: RequestMessage) {
    FromInt(m.requestType) == RATING || (FromInt(m.requestType) == NONE && m.requestType != -1)
  }

  /** The reply to an executed request carries its code in all cases but these three, in which
      it carries that of WRITE, of READ and of no operation. */
  lemma ReplyCodeIff(core: Core, m: RequestMessage, client: Endpoint, env: Env)
    requires core.Shaped() && FromInt(m.requestType) != ECHO && Execute(core, m, client, env).Executed?
    ensures Execute(core, m, client, env).response.requestType == m.requestType
            <==> !RefusedUpdate(core, m, env) && !MisplacedRegistration(core, m) && !UnknownCode(m)
    ensures RefusedUpdate(core, m, env) ==> Execute(core, m, client, env).response.requestType == 1
    ensures MisplacedRegistration(core, m) ==> Execute(core, m, client, env).response.requestType == 0
    ensures UnknownCode(m) ==> Execute(core, m, client, env).response.requestType == -1
  {
    hide AvailabilityText, IsAvailable, ParseBooking, ParseUpdate, JavaSplit, Book, Remove, BookedText, UpdatedText,
         RatedText, AddRating, BookingAnswer, RatingAnswer, FacilityNames, WantedDays, Has, UserInfo, PrintInt,
         ParseInt, ErrorText, ExecuteUpdate;
    if FromInt(m.requestType) == UPDATE {
      UpdateCodeIff(core, m, client, env);
    }
  }

  lemma UpdateCodeIff(core: Core, m: RequestMessage, client: Endpoint, env: Env)
    requires core.Shaped() && FromInt(m.requestType) == UPDATE
    ensures ExecuteUpdate(core, m, client, env).response.requestType
         == if RefusedUpdate(core, m, env) then OpCode(WRITE) else OpCode(UPDATE)
  {
    hide IsAvailable, ParseUpdate, JavaSplit, Book, Remove, UpdatedText, RatedText, AddRating, UserInfo, Has, ErrorText,
         PrintInt;
  }

  /** From the program's first state, moving any booking of Weekday1 to a Sunday, when it is
      closed, is refused with the code of WRITE. */
  lemma RefusedUpdateMiscoded(id: string, requestID: int32, client: Endpoint, env: Env)
    requires ',' !in id
    ensures var data := Join(MoveFields(id, "Weekday1", "SUNDAY", Time(9, 0), Time(10, 0)), ',');
            var m := RequestMessage(OpCode(UPDATE), requestID, Some(data));
            INITIAL.Shaped()
            && var r := Execute(INITIAL, m, client, env);
               r.Executed? && r.core == INITIAL && r.response.requestType == OpCode(WRITE)
  {
    hide Execute, INITIAL, JavaSplit, ParseUpdate, UpdateBooking, ErrorText, PrintInt, IsAvailable;
    var data := Join(MoveFields(id, "Weekday1", "SUNDAY", Time(9, 0), Time(10, 0)), ',');
    var m := RequestMessage(OpCode(UPDATE), requestID, Some(data));
    var b := BookingDetails(id, "Weekday1", TimeSlot(9, 0, 10, 0, SUNDAY));
    ServerParses(id, "Weekday1", SUNDAY, Time(9, 0), Time(10, 0), env);
    assert DayName(SUNDAY) == "SUNDAY";
    ClosedSunday();
    UpdateExecuted(INITIAL, id, "Weekday1", b.slot, client, requestID, env, data);
    RefusedWithWrite(INITIAL, m, b, client, env);
  }

  lemma ClosedSunday()
    ensures INITIAL.Shaped() && |INITIAL.facilities| == 3 && FacilityIndex(INITIAL.facilities, "Weekday1") == 0
    ensures !IsAvailable(INITIAL.facilities[0].calendar, TimeSlot(9, 0, 10, 0, SUNDAY))
  {
    hide Opened;
    OpenedDays([MONDAY, TUESDAY, WEDNESDAY], Time(8, 0), Time(17, 0), SUNDAY);
  }

  lemma RefusedWithWrite(core: Core, m: RequestMessage, b: BookingDetails, client: Endpoint, env: Env)
    requires core.Shaped()
    requires var i := FacilityIndex(core.facilities, b.facilityName);
             i < |core.facilities| && !IsAvailable(core.facilities[i].calendar, b.slot)
    ensures UpdateBooking(core, m, b, client, env).core == core
    ensures UpdateBooking(core, m, b, client, env).response.requestType == OpCode(WRITE)
  {
    hide IsAvailable, ErrorText, Book, Remove, UpdatedText, Has, UserInfo;
  }

  // ---------- deleting a booking ----------

  /** A deletion on a known facility always succeeds. It reports the requested ID if the caller
      owns such a booking and null if not, and it changes the facilities iff the caller does. */
  lemma DeleteReply(core: Core, m: RequestMessage, client: Endpoint, env: Env)
    requires core.Shaped() && FromInt(m.requestType) == DELETE && m.data.Some?
    requires |JavaSplit(m.data.value)| >= 2
             && FacilityIndex(core.facilities, JavaSplit(m.data.value)[1]) < |core.facilities|
    ensures var parts, user, r := JavaSplit(m.data.value), UserInfo(client), Execute(core, m, client, env);
            var c := core.facilities[FacilityIndex(core.facilities, parts[1])].calendar;
            && r.Executed? && r.core.monitors == core.monitors
            && r.response.data == Some("status:SUCCESS\nbookingID:"
                                       + (if Has(c, parts[0], user) then parts[0] else "null")
                                       + "\nuser:" + user)
            && (r.core.facilities != core.facilities <==> Has(c, parts[0], user))
  {
    hide JavaSplit, Remove, Has, UserInfo;
    var parts, user := JavaSplit(m.data.value), UserInfo(client);
    var i := FacilityIndex(core.facilities, parts[1]);
    RemoveChangesIff(core.facilities[i].calendar, parts[0], user);
  }

  lemma RemoveChangesIff(c: Calendar, id: string, user: string)
    requires c.Shaped()
    ensures Remove(c, id, user) != c <==> Has(c, id, user)
  {
    hide Has, Remove, Everything, Target;
    if Has(c, id, user) {
      RemoveTakes(c, id, user);
      assert |Everything(Remove(c, id, user).booked)| + 1 == |Everything(c.booked)|;
    } else {
      RemoveNothing(c, id, user);
    }
  }

  /** From the program's first state, deleting any booking at all reports null. */
  lemma DeletesNothing(id: string, requestID: int32, client: Endpoint, env: Env)
    requires ',' !in id
    ensures var m := RequestMessage(OpCode(DELETE), requestID, Some(id + ",Weekday1"));
            INITIAL.Shaped()
            && var r := Execute(INITIAL, m, client, env);
               r.Executed? && r.core == INITIAL
               && r.response.data == Some("status:SUCCESS\nbookingID:null\nuser:" + UserInfo(client))
  {
    hide Execute, INITIAL, JavaSplit, Has, UserInfo, Join;
    var m := RequestMessage(OpCode(DELETE), requestID, Some(id + ",Weekday1"));
    JavaSplitJoin([id, "Weekday1"]);
    JoinPair(id, "Weekday1");
    assert id + ",Weekday1" == id + [','] + "Weekday1";
    ClosedSunday();
    NoneBooked(id, UserInfo(client));
    DeleteReply(INITIAL, m, client, env);
    assert "status:SUCCESS\nbookingID:" + "null" + "\nuser:" == "status:SUCCESS\nbookingID:null\nuser:";
  }

  lemma JoinPair(a: string, b: string)
    ensures Join([a, b], ',') == a + [','] + b
  {
    assert [a, b][1..] == [b];
  }

  lemma NoneBooked(id: string, user: string)
    ensures |INITIAL.facilities| == 3 && !Has(INITIAL.facilities[0].calendar, id, user)
  {
    hide Opened;
    var c := INITIAL.facilities[0].calendar;
    assert c.booked == CLOSED.booked;
    var d := FindDay(c.booked, id, user, 0);
    assert forall k :: 0 <= k < |c.booked| ==> c.booked[k] == [];
    assert !(d < |c.booked|);
  }

  // ---------- the text of an update ----------

  /** An update is understood iff it has eight parts, not twelve as the error message says, of
      which the fourth is a day and the last four are numbers. */
  lemma UpdateParsesIff(text: string, env: Env)
    ensures var parts := JavaSplit(text);
            ParseUpdate(text, env).GoodUpdate?
            <==> !Blank(text) && |parts| == 8 && ParseDay(Upper(parts[3])).Some?
                 && forall k :: 4 <= k < 8 ==> ParseInt(parts[k]).Some?
  {
    hide JavaSplit, ParseDay, ParseInt, Blank, Upper, PrintInt;
  }

  /** The other case of a letter. */
  predicate SameLetter(c: char, upper: char) {
    c == upper || ('A' <= upper <= 'Z' && c as int == upper as int + 32)
  }

  /** The day of an update may be written in any mixture of cases, the day of a booking only in
      capitals. */
  lemma UpdateDayIff(s: string, day: Day)
    ensures ParseDay(Upper(s)) == Some(day)
            <==> |s| == |DayName(day)| && forall i :: 0 <= i < |s| ==> SameLetter(s[i], DayName(day)[i])
    ensures ParseDay(s) == Some(day) <==> s == DayName(day)
  {
    hide DayName, ParseDay, Upper;
    DayRoundTrip(day);
    ParseDayIff(s, day);
    ParseDayIff(Upper(s), day);
    UpperIs(s, DayName(day));
  }

  lemma ParseDayIff(s: string, day: Day)
    ensures ParseDay(s) == Some(day) <==> s == DayName(day)
  {
    DayRoundTrip(day);
  }

  lemma UpperIs(s: string, name: string)
    requires forall c <- name :: 'A' <= c <= 'Z'
    ensures Upper(s) == name <==> |s| == |name| && forall i :: 0 <= i < |s| ==> SameLetter(s[i], name[i])
  {
    assert forall i :: 0 <= i < |name| ==> name[i] in name;
    if |s| == |name| {
      forall i | 0 <= i < |s| ensures Upper(s)[i] == name[i] <==> SameLetter(s[i], name[i]) {
        assert Upper(s)[i] == UpperChar(s[i]);
      }
    }
  }

  /** A booking is understood iff it has at least six parts, of which the second is a day in
      capitals and the next four are numbers, and then they mean what they say. */
  lemma WriteParsesIff(text: string)
    ensures var parts := JavaSplit(text);
            && (ParseBooking(text).Some?
                <==> |parts| >= 6 && ParseDay(parts[1]).Some? && forall k :: 2 <= k < 6 ==> ParseInt(parts[k]).Some?)
            && (ParseBooking(text).Some? ==>
                  var b := ParseBooking(text).value;
                  && b.facilityName == parts[0] && parts[1] == DayName(b.slot.day)
                  && ParseInt(parts[2]) == Some(b.slot.startHour) && ParseInt(parts[3]) == Some(b.slot.startMinute)
                  && ParseInt(parts[4]) == Some(b.slot.endHour) && ParseInt(parts[5]) == Some(b.slot.endMinute))
  {
    hide JavaSplit, ParseDay, ParseInt, DayName;
  }

  // ---------- an update keeps facility and day ----------

  /** The booking has been replaced where it was, on its day. */
  ghost predicate InPlace(fs: seq<Facility>, i: nat, before: Booking, after: Booking) {
    i < |fs| && before !in Everything(fs[i].calendar.booked) && after in Everything(fs[i].calendar.booked)
    && after.timeSlot.day == before.timeSlot.day
  }

  /** An accepted update replaces the caller's booking in its facility and on its day iff the
      request names that facility and that day. On another day the booking moves there; with
      another facility a second booking is made and the first stays. */
  lemma UpdateInPlaceIff(core: Core, m: RequestMessage, b: BookingDetails, client: Endpoint, env: Env,
                         h: nat, held: Booking)
    requires core.Shaped() && UniqueIDs(core.facilities) && Holding(core.facilities, h, held)
    requires held.confirmationID == b.previous != env.uuid && held.userInfo == UserInfo(client)
    requires var i := FacilityIndex(core.facilities, b.facilityName);
             i < |core.facilities| && IsAvailable(core.facilities[i].calendar, b.slot)
    ensures var i := FacilityIndex(core.facilities, b.facilityName);
            var fs' := UpdateBooking(core, m, b, client, env).core.facilities;
            && (InPlace(fs', h, held, Booking(env.uuid, held.userInfo, b.slot))
                <==> i == h && b.slot.day == held.timeSlot.day)
            && (i != h ==> Holding(fs', h, held))
            && Holding(fs', i, Booking(env.uuid, held.userInfo, b.slot))
  {
    hide Everything, Book, Remove, Has, IsAvailable, UpdatedText, UserInfo, UniqueIDs;
    var fs, i, user := core.facilities, FacilityIndex(core.facilities, b.facilityName), UserInfo(client);
    var c := Remove(fs[i].calendar, b.previous, user);
    BookAdds(c, env.uuid, user, b.slot);
    if i == h {
      RemoveForgets(fs, h, b.previous, user);
      HasIff(c, b.previous, user);
      assert Owned(held, b.previous, user);
    }
  }

  const MORNING: TimeSlot := TimeSlot(9, 0, 10, 0, MONDAY)
  const ELSEWHERE: TimeSlot := TimeSlot(9, 0, 10, 0, THURSDAY)

  lemma BothFree()
    ensures INITIAL.Shaped() && |INITIAL.facilities| == 3
    ensures INITIAL.facilities[0].name == "Weekday1" && INITIAL.facilities[1].name == "Weekday2"
    ensures FacilityIndex(INITIAL.facilities, "Weekday1") == 0 && FacilityIndex(INITIAL.facilities, "Weekday2") == 1
    ensures IsAvailable(INITIAL.facilities[0].calendar, MORNING)
    ensures IsAvailable(INITIAL.facilities[1].calendar, ELSEWHERE)
  {
    hide Opened;
    OpenedDays([MONDAY, TUESDAY, WEDNESDAY], Time(8, 0), Time(17, 0), MONDAY);
    OpenedDays([WEDNESDAY, THURSDAY, FRIDAY], Time(8, 30), Time(23, 30), THURSDAY);
    assert INITIAL.facilities[0].calendar.booked[0] == [] && INITIAL.facilities[1].calendar.booked[3] == [];
    assert "Weekday1"[7] != "Weekday2"[7];
    assert FacilityIndex(INITIAL.facilities, "Weekday2") != 0;
  }

  /** From the program's first state, a Monday morning on Weekday1 is booked and then updated
      to a Thursday on Weekday2: both requests are accepted, and the user holds both. */
  lemma UpdateElsewhere(requestID: int32, client: Endpoint, env: Env, env': Env)
    requires ',' !in env.uuid && env.uuid != env'.uuid
    ensures var user := UserInfo(client);
            var text := Join(MoveFields(env.uuid, "Weekday2", "THURSDAY", Time(9, 0), Time(10, 0)), ',');
            var data := BookData("Weekday1", "MONDAY", StartText(MORNING), EndText(MORNING));
            data.Some? &&
            var booked := Execute(INITIAL, RequestMessage(OpCode(WRITE), requestID, data), client, env);
            booked.Executed? &&
            var updated := Execute(booked.core, RequestMessage(OpCode(UPDATE), requestID, Some(text)), client, env');
            updated.Executed?
            && Holding(updated.core.facilities, 0, Booking(env.uuid, user, MORNING))
            && Holding(updated.core.facilities, 1, Booking(env'.uuid, user, ELSEWHERE))
  {
    hide Execute, INITIAL, IsAvailable, Book, BookData, ParseBooking, UserInfo, UniqueIDs, Everything, Pad2, PrintInt,
         JavaSplit, ParseUpdate, UpdateBooking, InPlace, Join;
    var id, user := env.uuid, UserInfo(client);
    assert DayName(MONDAY) == "MONDAY" && DayName(THURSDAY) == "THURSDAY";
    BothFree();
    InitiallyFine(true);
    BookedAsTyped("Weekday1", MORNING);
    var m := RequestMessage(OpCode(WRITE), requestID,
                            BookData("Weekday1", "MONDAY", StartText(MORNING), EndText(MORNING)));
    WriteAccepted(INITIAL, m, BookingDetails("", "Weekday1", MORNING), client, env);
    var c := INITIAL.facilities[0].calendar;
    var core := SetCalendar(INITIAL, 0, Book(c, id, user, MORNING));
    BookUnique(INITIAL.facilities, 0, id, user, MORNING);
    BookAdds(c, id, user, MORNING);
    IndexStable(INITIAL.facilities, core.facilities, "Weekday2");
    ServerParses(id, "Weekday2", THURSDAY, Time(9, 0), Time(10, 0), env');
    var text := Join(MoveFields(id, "Weekday2", "THURSDAY", Time(9, 0), Time(10, 0)), ',');
    UpdateExecuted(core, id, "Weekday2", ELSEWHERE, client, requestID, env', text);
    UpdateInPlaceIff(core, RequestMessage(OpCode(UPDATE), requestID, Some(text)),
                     BookingDetails(id, "Weekday2", ELSEWHERE), client, env', 0, Booking(id, user, MORNING));
  }
}
