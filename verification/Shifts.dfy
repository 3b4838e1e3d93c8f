/** Sequences of moves: each accepted one shifts the stored booking by its offset, whatever
    other clients do in between. */
module Shifts {
  import opened Basics
  import opened TimeSlots
  import opened Bookings
  import opened Messages
  import opened Text
  import opened ClientText
  import opened ServerModel
  import opened Effects
  import opened Identifiers
  import opened Repetition
  import opened ShiftBooking
  import opened InitialState
  import opened Stopping
  import opened Users
  import opened Runs
  import opened DetailsParser
  import opened ReplyTexts

  /** The request the client reads a booking with. */
  function Query(id: string, requestID: int32): RequestMessage {
    RequestMessage(OpCode(READ), requestID, Some("booking," + id))
  }

  /** Failed: the client could not make sense of the answer, or the server stopped. Shifted:
      with the booking's new ID, as the client's parser finds it in the reply. */
  datatype Attempt = Failed | Refused(core: Core) | Shifted(core: Core, id: string)

  /** The client asks for a booking, composes the move from the answer and sends it. */
  function Shift(core: Core, id: string, offset: int, client: Endpoint, requestID: int32, env: Env): (r: Attempt)
    requires core.Shaped()
    ensures !r.Failed? ==> r.core.Shaped()
  {
    hide Execute, MoveData, LastOf, Body;
    match Execute(core, Query(id, requestID), client, env)
    case Stopped => Failed
    case Executed(core1, answer, _) =>
      match MoveData(id, offset, answer.data.value)
      case None => Failed
      case Some(data) =>
        match Execute(core1, RequestMessage(OpCode(UPDATE), requestID, Some(data)), client, env)
        case Stopped => Failed
        case Executed(core2, reply, _) =>
          if Success(reply) then Shifted(core2, LastOf(Body(reply.data.value), "newBookingID:")) else Refused(core2)
  }

  /** The client's sums stay in 32 bits. */
  predicate NoOverflow(slot: TimeSlot, offset: int) {
    InInt32(Minutes(slot.Start()) + offset) && InInt32(Minutes(slot.End()) + offset)
  }

  lemma SplitPrintable(total: int)
    requires InInt32(total)
    ensures Printable(Split(total))
  {
  }

  lemma QueryAnswered(core: Core, id: string, client: Endpoint, requestID: int32, env: Env)
    requires core.Shaped() && id != "" && ',' !in id
    ensures Execute(core, Query(id, requestID), client, env)
            == Executed(core, Reply(READ, Query(id, requestID), BookingAnswer(core.facilities, id)), None)
  {
    hide BookingAnswer, RatingAnswer, AvailabilityText, JavaSplit, WantedDays, FacilityNames;
    JavaSplitJoin(["booking", id]);
    assert Join(["booking", id], ',') == "booking," + id;
  }

  /** The slot the client believes a booking has; none when it throws. */
  function Seen(slot: TimeSlot): (r: Option<TimeSlot>) {
    var s, e := ReadTime(StartText(slot)), ReadTime(EndText(slot));
    if s.None? || e.None? then None
    else Some(TimeSlot(s.value.hour, s.value.minute, e.value.hour, e.value.minute, slot.day))
  }

  /** It is the slot the server has iff each number takes two characters. */
  lemma SeenIff(slot: TimeSlot)
    ensures Seen(slot) == Some(slot) <==> Readable(slot)
  {
    hide ReadTime, Pad2;
    ReadBackIff(slot.Start());
    ReadBackIff(slot.End());
  }

  /** What the client composes from the server's text. */
  lemma MoveComposed(b: Booking, name: string, offset: int)
    requires Tellable(b.confirmationID, b.userInfo, name)
    ensures MoveData(b.confirmationID, offset, BookingText(b, name))
            == match Seen(b.timeSlot)
               case None => None
               case Some(seen) =>
                 Some(Join(MoveFields(b.confirmationID, name, DayName(b.timeSlot.day),
                                      Split(Minutes(seen.Start()) + offset), Split(Minutes(seen.End()) + offset)), ','))
  {
    hide Extract, BookingText, ReadTime, Tellable, MoveFields, Split, DayName, StartText, EndText;
    ClientReads(b, name);
  }

  /** The update the server executes. */
  lemma UpdateExecuted(core: Core, id: string, name: string, slot: TimeSlot, client: Endpoint, requestID: int32,
                       env: Env,
                       data: string)
    requires core.Shaped() && JavaSplit(data) != [] && JavaSplit(data)[0] == "booking"
    requires ParseUpdate(data, env) == GoodUpdate(BookingDetails(id, name, slot))
    ensures var m := RequestMessage(OpCode(UPDATE), requestID, Some(data));
            Execute(core, m, client, env) == UpdateBooking(core, m, BookingDetails(id, name, slot), client, env)
  {
    hide JavaSplit, ParseUpdate, UpdateBooking, RateFacility;
  }

  lemma RefusalText()
    ensures !("status:SUCCESS" <= ErrorText("Facility not available at the requested time"))
  {
    assert "status:SUCCESS"[7] != ErrorText("Facility not available at the requested time")[7];
  }

  lemma SuccessText(previous: string, id: string, user: string, facility: string, slot: TimeSlot)
    ensures "status:SUCCESS" <= UpdatedText(previous, id, user, facility, slot)
  {
    hide DayName, StartText, EndText;
    var t := UpdatedText(previous, id, user, facility, slot);
    var head: string := "status:SUCCESS\noldBookingID:";
    assert t[..|head|] == head;
    assert head[..14] == "status:SUCCESS";
    assert t[..14] == head[..14];
  }

  /** An update of a known facility succeeds exactly when the slot is available, and changes
      nothing otherwise. */
  lemma UpdateReplies(core: Core, m: RequestMessage, b: BookingDetails, client: Endpoint, env: Env)
    requires core.Shaped() && FacilityIndex(core.facilities, b.facilityName) < |core.facilities|
    ensures var c := core.facilities[FacilityIndex(core.facilities, b.facilityName)].calendar;
            && (Success(UpdateBooking(core, m, b, client, env).response) <==> IsAvailable(c, b.slot))
            && (!IsAvailable(c, b.slot) ==> UpdateBooking(core, m, b, client, env).core == core)
  {
    hide IsAvailable, Book, Remove, UpdatedText, UserInfo, RemovedID, ErrorText;
    RefusalText();
    var c, user := core.facilities[FacilityIndex(core.facilities, b.facilityName)].calendar, UserInfo(client);
    SuccessText(RemovedID(c, b.previous, user), env.uuid, user, b.facilityName, b.slot);
  }

  /** One move, end to end, of any booking: the client throws iff it cannot read the times; if
      it can, the server accepts the move exactly when what the client read, shifted, is
      available, and then it has replaced this booking, and nothing else, by that slot. */
  lemma ShiftAsRead(core: Core, i: nat, b: Booking, offset: int, client: Endpoint, requestID: int32, env: Env)
    requires core.Shaped() && UniqueIDs(core.facilities) && Holding(core.facilities, i, b)
    requires FacilityIndex(core.facilities, core.facilities[i].name) == i && b.userInfo == UserInfo(client)
    requires Tellable(b.confirmationID, b.userInfo, core.facilities[i].name)
    requires Seen(b.timeSlot).Some? ==> NoOverflow(Seen(b.timeSlot).value, offset)
    ensures var c, seen := core.facilities[i].calendar, Seen(b.timeSlot);
            match Shift(core, b.confirmationID, offset, client, requestID, env)
            case Failed => seen == None
            case Refused(core') => seen.Some? && !IsAvailable(c, ShiftedSlot(seen.value, offset)) && core' == core
            case Shifted(core', id') =>
              seen.Some? &&
              var slot := ShiftedSlot(seen.value, offset);
              var c' := Book(Remove(c, b.confirmationID, b.userInfo), env.uuid, b.userInfo, slot);
              && IsAvailable(c, slot) && core' == SetCalendar(core, i, c')
              && Everything(c'.booked) + multiset{b}
                 == Everything(c.booked) + multiset{Booking(env.uuid, b.userInfo, slot)}
              && ('\n' !in env.uuid && '\n' !in b.userInfo ==> id' == env.uuid)
  {
    hide LastOf, Body, Execute, MoveData, Join, Split, DayName, BookingText, BookingAnswer, UniqueIDs, IsAvailable,
         Book, Remove, Everything, Has, Target, UserInfo, ParseUpdate, JavaSplit, UpdatedText, ReadTime,
         Success, UpdateBooking, Minutes, StartText, EndText;
    var fs, id, name := core.facilities, b.confirmationID, core.facilities[i].name;
    QueryAnswered(core, id, client, requestID, env);
    AnswerFinds(fs, i, b);
    MoveComposed(b, name, offset);
    if Seen(b.timeSlot).Some? {
      var slot := Seen(b.timeSlot).value;
      var s, e := Split(Minutes(slot.Start()) + offset), Split(Minutes(slot.End()) + offset);
      SplitPrintable(Minutes(slot.Start()) + offset);
      SplitPrintable(Minutes(slot.End()) + offset);
      ServerParses(id, name, slot.day, s, e, env);
      var data := Join(MoveFields(id, name, DayName(slot.day), s, e), ',');
      var d := BookingDetails(id, name, ShiftedSlot(slot, offset));
      var m := RequestMessage(OpCode(UPDATE), requestID, Some(data));
      UpdateExecuted(core, id, name, ShiftedSlot(slot, offset), client, requestID, env, data);
      UpdateReplies(core, m, d, client, env);
      RemovesHeld(fs, i, b);
      Accepted(core, m, d, client, env);
      if IsAvailable(core.facilities[i].calendar, d.slot) && '\n' !in env.uuid && '\n' !in b.userInfo {
        NewIDRead(core, m, d, client, env);
      }
    }
  }

  /** The client finds the new booking's ID in the reply to an accepted update. */
  lemma NewIDRead(core: Core, m: RequestMessage, b: BookingDetails, client: Endpoint, env: Env)
    requires core.Shaped() && FacilityIndex(core.facilities, b.facilityName) < |core.facilities|
    requires IsAvailable(core.facilities[FacilityIndex(core.facilities, b.facilityName)].calendar, b.slot)
    requires '\n' !in b.previous && Unbroken(Booking(env.uuid, UserInfo(client), b.slot), b.facilityName)
    ensures LastOf(Body(UpdateBooking(core, m, b, client, env).response.data.value), "newBookingID:") == env.uuid
  {
    hide IsAvailable, Book, Remove, UpdatedText, UserInfo, Has, LastOf, Body, UpdateShown;
    var c, user := core.facilities[FacilityIndex(core.facilities, b.facilityName)].calendar, UserInfo(client);
    UpdateIsShown(RemovedID(c, b.previous, user), Booking(env.uuid, user, b.slot), b.facilityName);
  }

  /** For a booking whose numbers take two characters each, the new slot is the stored one
      with start and end later by the offset. */
  lemma ShiftIsExact(core: Core, i: nat, b: Booking, offset: int, client: Endpoint, requestID: int32, env: Env)
    requires core.Shaped() && UniqueIDs(core.facilities) && Holding(core.facilities, i, b)
    requires FacilityIndex(core.facilities, core.facilities[i].name) == i && b.userInfo == UserInfo(client)
    requires Tellable(b.confirmationID, b.userInfo, core.facilities[i].name)
    requires Readable(b.timeSlot) && NoOverflow(b.timeSlot, offset)
    ensures var c := core.facilities[i].calendar;
            match Shift(core, b.confirmationID, offset, client, requestID, env)
            case Failed => false
            case Refused(core') => !IsAvailable(c, ShiftedSlot(b.timeSlot, offset)) && core' == core
            case Shifted(core', id') =>
              var c' := Book(Remove(c, b.confirmationID, b.userInfo), env.uuid, b.userInfo,
                        ShiftedSlot(b.timeSlot, offset));
              && IsAvailable(c, ShiftedSlot(b.timeSlot, offset)) && core' == SetCalendar(core, i, c')
              && Everything(c'.booked) + multiset{b}
                 == Everything(c.booked) + multiset{Booking(env.uuid, b.userInfo, ShiftedSlot(b.timeSlot, offset))}
              && ('\n' !in env.uuid && '\n' !in b.userInfo ==> id' == env.uuid)
  {
    hide Shift, UniqueIDs, IsAvailable, Book, Remove, Everything, UserInfo, Readable, Seen, ShiftedSlot, Tellable;
    SeenIff(b.timeSlot);
    ShiftAsRead(core, i, b, offset, client, requestID, env);
  }

  lemma Accepted(core: Core, m: RequestMessage, b: BookingDetails, client: Endpoint, env: Env)
    requires core.Shaped() && FacilityIndex(core.facilities, b.facilityName) < |core.facilities|
    requires var c := core.facilities[FacilityIndex(core.facilities, b.facilityName)].calendar;
             IsAvailable(c, b.slot) ==> Has(c, b.previous, UserInfo(client))
    ensures var i := FacilityIndex(core.facilities, b.facilityName);
            var c := core.facilities[i].calendar;
            var c' := Book(Remove(c, b.previous, UserInfo(client)), env.uuid, UserInfo(client), b.slot);
            IsAvailable(c, b.slot) ==>
              && UpdateBooking(core, m, b, client, env).core == SetCalendar(core, i, c')
              && Everything(c'.booked) + multiset{Target(c, b.previous, UserInfo(client))}
                 == Everything(c.booked) + multiset{Booking(env.uuid, UserInfo(client), b.slot)}
  {
    hide IsAvailable, Book, Remove, Everything, Has, Target, UserInfo, UpdatedText;
    UpdateAllOrNothing(core, m, b, client, env);
  }

  // ---------- a small move that is not refused ----------

  const LONG_MINUTES: TimeSlot := TimeSlot(9, 0, 9, 75, MONDAY)

  lemma LongMinutesFree(id: string, user: string)
    ensures INITIAL.Shaped() && |INITIAL.facilities| == 3 && INITIAL.facilities[0].name == "Weekday1"
    ensures FacilityIndex(INITIAL.facilities, "Weekday1") == 0
    ensures IsAvailable(INITIAL.facilities[0].calendar, LONG_MINUTES)
    ensures IsAvailable(Book(INITIAL.facilities[0].calendar, id, user, LONG_MINUTES), ShiftedSlot(LONG_MINUTES, 70))
  {
    hide Opened;
    var c := INITIAL.facilities[0].calendar;
    OpenedDays([MONDAY, TUESDAY, WEDNESDAY], Time(8, 0), Time(17, 0), MONDAY);
    assert c.booked[0] == [] && c.days[0];
    assert ShiftedSlot(LONG_MINUTES, 70) == TimeSlot(10, 10, 11, 25, MONDAY);
  }

  lemma WriteAccepted(core: Core, m: RequestMessage, b: BookingDetails, client: Endpoint, env: Env)
    requires core.Shaped() && FromInt(m.requestType) == WRITE && m.data.Some? && ParseBooking(m.data.value) == Some(b)
    requires var i := FacilityIndex(core.facilities, b.facilityName);
             i < |core.facilities| && IsAvailable(core.facilities[i].calendar, b.slot)
    ensures var i := FacilityIndex(core.facilities, b.facilityName);
            var r := Execute(core, m, client, env);
            r.Executed?
            && r.core == SetCalendar(core, i, Book(core.facilities[i].calendar, env.uuid, UserInfo(client), b.slot))
  {
    hide ParseBooking, IsAvailable, Book, BookedText, UserInfo;
  }

  /** Nothing checks minutes, so 9:00 to 9:75 can be booked from the program's first state.
      The booking lasts 75 minutes, and moving it by 70 is accepted. */
  lemma LongMinutesMove(client: Endpoint, requestID: int32, env: Env, env': Env)
    requires Tellable(env.uuid, UserInfo(client), "Weekday1")
    ensures var data := BookData("Weekday1", "MONDAY", "0900", "0975");
            data.Some? &&
            var booked := Execute(INITIAL, RequestMessage(OpCode(WRITE), requestID, data), client, env);
            booked.Executed?
            && Duration(LONG_MINUTES) == 75 && !InnerEndsInOrder(LONG_MINUTES)
            && Shift(booked.core, env.uuid, 70, client, requestID, env').Shifted?
  {
    hide Execute, INITIAL, IsAvailable, Book, Remove, Shift, BookData, ParseBooking, UserInfo, Tellable, UniqueIDs,
         Everything, Pad2;
    var id, user := env.uuid, UserInfo(client);
    FourDigits();
    BookedAsTyped("Weekday1", LONG_MINUTES);
    var m := RequestMessage(OpCode(WRITE), requestID, BookData("Weekday1", "MONDAY", "0900", "0975"));
    LongMinutesFree(id, user);
    InitiallyFine(true);
    assert FacilityIndex(INITIAL.facilities, "Weekday1") == 0 && |INITIAL.facilities| > 0;
    WriteAccepted(INITIAL, m, BookingDetails("", "Weekday1", LONG_MINUTES), client, env);
    var c := INITIAL.facilities[0].calendar;
    assert INITIAL.facilities[FacilityIndex(INITIAL.facilities, "Weekday1")].calendar == c;
    var core := SetCalendar(INITIAL, 0, Book(c, id, user, LONG_MINUTES));
    BookUnique(INITIAL.facilities, 0, id, user, LONG_MINUTES);
    BookAdds(c, id, user, LONG_MINUTES);
    IndexStable(INITIAL.facilities, core.facilities, "Weekday1");
    ShiftIsExact(core, 0, Booking(id, user, LONG_MINUTES), 70, client, requestID, env');
  }

  lemma FourDigits()
    ensures DayName(MONDAY) == "MONDAY" && StartText(LONG_MINUTES) == "0900" && EndText(LONG_MINUTES) == "0975"
  {
    assert PrintNat(9) == "9" && PrintNat(0) == "0" && PrintNat(7) == "7";
    assert PrintNat(75) == PrintNat(7) + "5";
    assert Pad2(9) == "09" && Pad2(0) == "00" && Pad2(75) == "75";
  }

  // ---------- other requests ----------

  /** The request deletes or moves the booking with this ID. */
  predicate Names(m: RequestMessage, env: Env, id: string) {
    if FromInt(m.requestType) == UPDATE then Requested(m, env).Some? && Requested(m, env).value.previous == id
    else
      FromInt(m.requestType) == DELETE && m.data.Some? && JavaSplit(m.data.value) != []
      && JavaSplit(m.data.value)[0] == id
  }

  /** The request comes from another address or port, or is about something else. */
  predicate Spares(m: RequestMessage, client: Endpoint, env: Env, owner: Endpoint, id: string) {
    client != owner || !Names(m, env, id)
  }

  /** Whatever any endpoint asks for other than the one that made the booking, and whatever
      that one asks for without naming it, the booking stays as it is. */
  lemma OthersKeep(core: Core, m: RequestMessage, client: Endpoint, env: Env, i: nat, owner: Endpoint, b: Booking)
    requires core.Shaped() && Holding(core.facilities, i, b) && b.userInfo == UserInfo(owner)
    requires Spares(m, client, env, owner, b.confirmationID)
    requires Execute(core, m, client, env).Executed?
    ensures Holding(Execute(core, m, client, env).core.facilities, i, b)
  {
    hide Execute, EffectOf, Everything, Book, Remove, IsAvailable, UserInfo, Has, Spares;
    ExecuteApplies(core, m, client, env);
    EffectSpares(core, m, client, env, owner, b);
    ApplyKeeps(core.facilities, EffectOf(core, m, client, env), i, b);
  }

  /** In a run whose requests all spare the booking, whoever sends them. */
  ghost predicate AllSpare(arrivals: seq<Arrival>, owner: Endpoint, id: string) {
    forall a <- arrivals :: a.m.Some? ==> Spares(a.m.value, a.client, a.env, owner, id)
  }

  /** A booking survives every run, under either semantics, in which its owner does not name
      it, whatever all other endpoints send. */
  lemma BookingSurvives(mach: Machine, checkHistory: bool, arrivals: seq<Arrival>, i: nat, owner: Endpoint, b: Booking)
    requires mach.st.core.Shaped() && Holding(mach.st.core.facilities, i, b) && b.userInfo == UserInfo(owner)
    requires AllSpare(arrivals, owner, b.confirmationID)
    ensures Holding(Run(mach, checkHistory, arrivals).st.core.facilities, i, b)
  {
    hide Run, Execute, Holding, UserInfo, Spares;
    var inv := (fs: seq<Facility>) => Holding(fs, i, b);
    var allowed := (a: Arrival) => a.m.Some? ==> Spares(a.m.value, a.client, a.env, owner, b.confirmationID);
    forall core: Core, a: Arrival | core.Shaped() && inv(core.facilities) && a.m.Some? && allowed(a)
                                    && Execute(core, a.m.value, a.client, a.env).Executed?
      ensures inv(Execute(core, a.m.value, a.client, a.env).core.facilities)
    {
      OthersKeep(core, a.m.value, a.client, a.env, i, owner, b);
    }
    RunKeeps(mach, checkHistory, arrivals, inv, allowed);
  }

  /** The effect takes away no booking with this user and ID. */
  predicate EffectLeaves(e: Effect, b: Booking) {
    match e
    case Moved(_, previous, _, user, _) => previous != b.confirmationID || user != b.userInfo
    case Removed(_, previous, user) => previous != b.confirmationID || user != b.userInfo
    case _ => true
  }

  lemma EffectSpares(core: Core, m: RequestMessage, client: Endpoint, env: Env, owner: Endpoint, b: Booking)
    requires core.Shaped() && b.userInfo == UserInfo(owner) && Spares(m, client, env, owner, b.confirmationID)
    ensures EffectLeaves(EffectOf(core, m, client, env), b)
  {
    hide IsAvailable, JavaSplit, UserInfo, ParseBooking, ParseUpdate;
    UserInfoInjective(client, owner);
  }

  lemma ApplyKeeps(fs: seq<Facility>, e: Effect, i: nat, b: Booking)
    requires Guarded(fs, e) && Holding(fs, i, b) && EffectLeaves(e, b)
    ensures Holding(Apply(fs, e), i, b)
  {
    hide Everything, Book, Remove, IsAvailable, Has;
    match e
    case Booked(j, id, u, slot) => BookAdds(fs[j].calendar, id, u, slot);
    case Moved(j, previous, id, u, slot) =>
      RemoveLeaves(fs[j].calendar, previous, u);
      BookAdds(Remove(fs[j].calendar, previous, u), id, u, slot);
    case Removed(j, previous, u) => RemoveLeaves(fs[j].calendar, previous, u);
    case _ =>
  }

  /** A removal takes nothing that belongs to somebody else or has another ID. */
  lemma RemoveLeaves(c: Calendar, id: string, user: string)
    requires c.Shaped()
    ensures forall b :: b in Everything(c.booked) && !Owned(b, id, user) ==> b in Everything(Remove(c, id, user).booked)
  {
    hide Everything, Has, Target, Remove;
    if Has(c, id, user) {
      RemoveTakes(c, id, user);
      assert Owned(Target(c, id, user), id, user);
    } else {
      RemoveNothing(c, id, user);
    }
  }

  // ---------- many moves ----------

  /** A move the owner tries, or any other request of anybody. */
  datatype Deed = Move(offset: int, requestID: int32, env: Env) | Other(m: RequestMessage, client: Endpoint, env: Env)

  /** The server, the booking's ID as its owner knows it, and the sum of the offsets of accepted moves. */
  datatype Progress = Progress(core: Core, id: string, moved: int)

  function Perform(p: Progress, owner: Endpoint, deed: Deed): (r: Option<Progress>)
    requires p.core.Shaped()
    ensures r.Some? ==> r.value.core.Shaped()
  {
    hide Execute, Shift;
    match deed
    case Move(offset, requestID, env) =>
      (match Shift(p.core, p.id, offset, owner, requestID, env)
       case Failed => None
       case Refused(core) => Some(Progress(core, p.id, p.moved))
       case Shifted(core, id) => Some(Progress(core, id, p.moved + offset)))
    case Other(m, client, env) =>
      match Execute(p.core, m, client, env)
      case Stopped => None
      case Executed(core, _, _) => Some(Progress(core, p.id, p.moved))
  }

  function PerformAll(p: Progress, owner: Endpoint, deeds: seq<Deed>): (r: Option<Progress>)
    requires p.core.Shaped()
    ensures r.Some? ==> r.value.core.Shaped()
    decreases deeds
  {
    hide Perform;
    if deeds == [] then Some(p)
    else
      match Perform(p, owner, deeds[0])
      case None => None
      case Some(next) => PerformAll(next, owner, deeds[1..])
  }

  /** The booking's slot after moves adding up to moved; unsplit until the first one. */
  ghost predicate SlotAfter(slot: TimeSlot, start: TimeSlot, moved: int) {
    && Minutes(slot.Start()) == Minutes(start.Start()) + moved
    && Minutes(slot.End()) == Minutes(start.End()) + moved
    && slot.day == start.day
  }

  /** Identifiers are fresh and do not get in the way of the client's searches, and no other
      request of the owner names the booking by an ID it has had so far. */
  ghost predicate Supplied(fs: seq<Facility>, owner: Endpoint, id: string, name: string, deeds: seq<Deed>) {
    && (forall i, j :: 0 <= i < j < |deeds| ==> deeds[i].env.uuid != deeds[j].env.uuid)
    && (forall i :: 0 <= i < |deeds| ==>
          Unused(fs, deeds[i].env.uuid) && Tellable(deeds[i].env.uuid, UserInfo(owner), name))
    && (forall i :: 0 <= i < |deeds| && deeds[i].Other? ==> DeedSpares(deeds[i], owner, id))
    && (forall i, j :: 0 <= i < j < |deeds| && deeds[j].Other? ==> DeedSpares(deeds[j], owner, deeds[i].env.uuid))
  }

  predicate DeedSpares(deed: Deed, owner: Endpoint, id: string)
    requires deed.Other?
  {
    Spares(deed.m, deed.client, deed.env, owner, id)
  }

  /** The booking is where and what it should be. */
  ghost predicate OnTrack(p: Progress, i: nat, name: string, owner: Endpoint, b: Booking) {
    && p.core.Shaped() && UniqueIDs(p.core.facilities) && Holding(p.core.facilities, i, b)
    && FacilityIndex(p.core.facilities, name) == i && p.core.facilities[i].name == name
    && b.userInfo == UserInfo(owner) && b.confirmationID == p.id && Tellable(p.id, b.userInfo, name)
    && '\n' !in owner.address
  }

  /** The booking after the deed. */
  function After(p: Progress, owner: Endpoint, deed: Deed, b: Booking): (b': Booking)
    requires p.core.Shaped()
  {
    if deed.Move? && Shift(p.core, p.id, deed.offset, owner, deed.requestID, deed.env).Shifted? then
      Booking(deed.env.uuid, b.userInfo, ShiftedSlot(b.timeSlot, deed.offset))
    else b
  }

  /** Whenever the owner tries a move, the client can read the booking's times and its sums
      do not overflow. */
  ghost predicate ReadableAlong(p: Progress, owner: Endpoint, deeds: seq<Deed>, b: Booking)
    requires p.core.Shaped()
    decreases deeds
  {
    hide Perform, After;
    deeds == [] ||
    (&& (deeds[0].Move? ==> Readable(b.timeSlot) && NoOverflow(b.timeSlot, deeds[0].offset))
     && (Perform(p, owner, deeds[0]).Some? ==>
           ReadableAlong(Perform(p, owner, deeds[0]).value, owner, deeds[1..], After(p, owner, deeds[0], b))))
  }

  lemma ApplyNames(fs: seq<Facility>, e: Effect)
    requires Guarded(fs, e)
    ensures forall i :: 0 <= i < |fs| ==> Apply(fs, e)[i].name == fs[i].name
  {
    hide Book, Remove, IsAvailable;
  }

  lemma OtherOnTrack(p: Progress, i: nat, name: string, owner: Endpoint, b: Booking, deed: Deed)
    requires OnTrack(p, i, name, owner, b) && deed.Other? && DeedSpares(deed, owner, p.id)
    requires Unused(p.core.facilities, deed.env.uuid) && Perform(p, owner, deed).Some?
    ensures OnTrack(Perform(p, owner, deed).value, i, name, owner, b)
    ensures NothingNew(p.core.facilities, Perform(p, owner, deed).value.core.facilities, {deed.env.uuid})
  {
    hide Execute, UniqueIDs, Unused, Everything, EffectOf, NothingNew, Tellable, UserInfo, Guarded, Apply, Spares;
    var fs := p.core.facilities;
    var e := EffectOf(p.core, deed.m, deed.client, deed.env);
    ExecuteApplies(p.core, deed.m, deed.client, deed.env);
    OthersKeep(p.core, deed.m, deed.client, deed.env, i, owner, b);
    EffectID(p.core, deed.m, deed.client, deed.env);
    ApplyUnique(fs, e);
    ApplyNames(fs, e);
    IndexStable(fs, Apply(fs, e), name);
    MoreNew(fs, Apply(fs, e), AddedBy(e), {deed.env.uuid});
  }

  lemma EffectID(core: Core, m: RequestMessage, client: Endpoint, env: Env)
    requires core.Shaped()
    ensures AddedBy(EffectOf(core, m, client, env)) <= {env.uuid}
  {
    hide Requested, IsAvailable, JavaSplit, UserInfo;
  }

  lemma MoreNew(fs: seq<Facility>, fs': seq<Facility>, a: set<string>, b: set<string>)
    requires NothingNew(fs, fs', a) && a <= b
    ensures NothingNew(fs, fs', b)
  {
  }

  lemma MoveOnTrack(p: Progress, i: nat, name: string, owner: Endpoint, b: Booking, deed: Deed)
    requires OnTrack(p, i, name, owner, b) && deed.Move? && Readable(b.timeSlot) && NoOverflow(b.timeSlot, deed.offset)
    requires Unused(p.core.facilities, deed.env.uuid) && Tellable(deed.env.uuid, b.userInfo, name)
    ensures Perform(p, owner, deed).Some?
    ensures OnTrack(Perform(p, owner, deed).value, i, name, owner, After(p, owner, deed, b))
    ensures NothingNew(p.core.facilities, Perform(p, owner, deed).value.core.facilities, {deed.env.uuid})
  {
    hide Shift, UniqueIDs, Unused, Everything, NothingNew, Tellable, UserInfo, Readable, NoOverflow, Book, Remove,
         IsAvailable, ShiftedSlot;
    var fs := p.core.facilities;
    ShiftIsExact(p.core, i, b, deed.offset, owner, deed.requestID, deed.env);
    match Shift(p.core, p.id, deed.offset, owner, deed.requestID, deed.env)
    case Failed =>
    case Refused(_) => SameIsNothingNew(fs, {deed.env.uuid});
    case Shifted(core', id') =>
      NewIDTaken(owner, deed, name);
      var c := fs[i].calendar;
      var user, new_ := b.userInfo, ShiftedSlot(b.timeSlot, deed.offset);
      var fs1 := WithCalendar(fs, i, Remove(c, p.id, user));
      var fs2 := WithCalendar(fs, i, Book(Remove(c, p.id, user), deed.env.uuid, user, new_));
      assert core'.facilities == fs2;
      RemoveUnique(fs, i, p.id, user);
      BookUnique(fs1, i, deed.env.uuid, user, new_);
      assert fs2 == WithCalendar(fs1, i, Book(fs1[i].calendar, deed.env.uuid, user, new_));
      NothingNewAfter(fs, fs1, fs2, {deed.env.uuid});
      IndexStable(fs, fs2, name);
      NowHolds(Everything(c.booked), Everything(fs2[i].calendar.booked), b, Booking(deed.env.uuid, user, new_));
      assert Booking(deed.env.uuid, user, new_) in Everything(fs2[i].calendar.booked);
  }

  lemma NewIDTaken(owner: Endpoint, deed: Deed, name: string)
    requires Tellable(deed.env.uuid, UserInfo(owner), name) && '\n' !in owner.address
    ensures '\n' !in deed.env.uuid && '\n' !in UserInfo(owner)
  {
    UserOnOneLine(owner);
  }

  lemma NowHolds(before: multiset<Booking>, after: multiset<Booking>, b: Booking, added: Booking)
    requires after + multiset{b} == before + multiset{added} && b in before
    ensures added in after
  {
    assert (after + multiset{b})[added] == (before + multiset{added})[added];
  }

  lemma SameIsNothingNew(fs: seq<Facility>, added: set<string>)
    ensures NothingNew(fs, fs, added)
  {
  }

  lemma NothingNewAfter(fs: seq<Facility>, fs1: seq<Facility>, fs2: seq<Facility>, added: set<string>)
    requires (forall x :: Unused(fs, x) ==> Unused(fs1, x)) && NothingNew(fs1, fs2, added)
    ensures NothingNew(fs, fs2, added)
  {
    hide Unused;
    forall p | Occupied(fs2, p) ensures IDAt(fs2, p) in added || !Unused(fs, IDAt(fs2, p)) {
    }
  }

  lemma StillSupplied(fs: seq<Facility>, fs': seq<Facility>, owner: Endpoint, id: string, id': string, name: string,
                      deeds: seq<Deed>)
    requires deeds != [] && Supplied(fs, owner, id, name, deeds) && NothingNew(fs, fs', {deeds[0].env.uuid})
    requires id' == id || id' == deeds[0].env.uuid
    ensures Supplied(fs', owner, id', name, deeds[1..])
  {
    hide Unused, NothingNew, Tellable, UserInfo, DeedSpares;
    StaysUnused(fs, fs', {deeds[0].env.uuid});
    assert forall i :: 0 <= i < |deeds| - 1 ==> deeds[1..][i] == deeds[i + 1];
  }

  lemma AfterSlot(p: Progress, owner: Endpoint, deed: Deed, b: Booking, start: TimeSlot)
    requires p.core.Shaped() && SlotAfter(b.timeSlot, start, p.moved) && Perform(p, owner, deed).Some?
    ensures SlotAfter(After(p, owner, deed, b).timeSlot, start, Perform(p, owner, deed).value.moved)
  {
    hide Execute, Shift, Split;
  }

  predicate Fatal(deed: Deed) { deed.Other? && Stops(deed.m) }

  /** Only a fatal request ends the run. */
  lemma OtherFails(p: Progress, owner: Endpoint, deed: Deed)
    requires p.core.Shaped() && deed.Other?
    ensures Perform(p, owner, deed).None? <==> Fatal(deed)
  {
    hide Execute, Stops;
    StopsIff(p.core, deed.m, deed.client, deed.env);
  }

  /** Any number of moves, refused ones and other requests in between: unless a request ends
      the server, the booking is still there, under its latest ID, on its day, with start and
      end later by the sum of the accepted offsets. */
  lemma {:induction false} ShiftsAddUp(p: Progress, i: nat, name: string, owner: Endpoint, b: Booking, start: TimeSlot,
                                       deeds: seq<Deed>)
    requires OnTrack(p, i, name, owner, b) && SlotAfter(b.timeSlot, start, p.moved)
    requires Supplied(p.core.facilities, owner, p.id, name, deeds)
    requires ReadableAlong(p, owner, deeds, b)
    ensures PerformAll(p, owner, deeds).None? <==> exists deed <- deeds :: Fatal(deed)
    ensures match PerformAll(p, owner, deeds)
            case None => true
            case Some(end) =>
              exists slot :: SlotAfter(slot, start, end.moved)
                             && Holding(end.core.facilities, i, Booking(end.id, b.userInfo, slot))
    decreases deeds
  {
    hide Perform, UniqueIDs, Unused, Everything, NothingNew, Tellable, UserInfo, Readable, NoOverflow, After, SlotAfter,
         Fatal, DeedSpares;
    if deeds == [] {
      assert PerformAll(p, owner, deeds) == Some(p);
      assert SlotAfter(b.timeSlot, start, p.moved)
           && Holding(p.core.facilities, i, Booking(p.id, b.userInfo, b.timeSlot));
    } else {
      var deed := deeds[0];
      assert deeds == [deed] + deeds[1..];
      if deed.Move? {
        MoveOnTrack(p, i, name, owner, b, deed);
        MoveNotFatal(deed);
      } else {
        OtherFails(p, owner, deed);
        if Perform(p, owner, deed).Some? {
          OtherOnTrack(p, i, name, owner, b, deed);
          AfterOther(p, owner, deed, b);
        }
      }
      if Perform(p, owner, deed).Some? {
        var next := Perform(p, owner, deed).value;
        NextID(p, owner, deed, i, name, b);
        StillSupplied(p.core.facilities, next.core.facilities, owner, p.id, next.id, name, deeds);
        AfterSlot(p, owner, deed, b, start);
        AfterUser(p, owner, deed, b);
        ShiftsAddUp(next, i, name, owner, After(p, owner, deed, b), start, deeds[1..]);
        assert PerformAll(p, owner, deeds) == PerformAll(next, owner, deeds[1..]);
        if PerformAll(p, owner, deeds).Some? {
          var end := PerformAll(next, owner, deeds[1..]).value;
          var slot :| SlotAfter(slot, start, end.moved)
                      && Holding(end.core.facilities, i, Booking(end.id, After(p, owner, deed, b).userInfo, slot));
          assert Holding(end.core.facilities, i, Booking(end.id, b.userInfo, slot));
        }
      }
    }
  }

  lemma MoveNotFatal(deed: Deed)
    requires deed.Move?
    ensures !Fatal(deed)
  {
  }

  lemma NextID(p: Progress, owner: Endpoint, deed: Deed, i: nat, name: string, b: Booking)
    requires p.core.Shaped() && Perform(p, owner, deed).Some?
    requires OnTrack(Perform(p, owner, deed).value, i, name, owner, After(p, owner, deed, b))
    requires b.confirmationID == p.id
    ensures Perform(p, owner, deed).value.id in {p.id, deed.env.uuid}
  {
    hide Execute, Shift, Perform, UniqueIDs, Everything, Tellable;
  }

  // ---------- a condition known beforehand ----------

  /** How far the booking could travel at most. */
  function Travel(deeds: seq<Deed>): (n: nat) {
    if deeds == [] then 0
    else (if !deeds[0].Move? then 0 else if deeds[0].offset < 0 then -deeds[0].offset else deeds[0].offset)
         + Travel(deeds[1..])
  }

  /** Both ends stay between 0:00 and 99:59 however they are moved by up to n minutes. */
  predicate RoomFor(slot: TimeSlot, n: nat) {
    && n <= Minutes(slot.Start()) <= 5999 - n
    && n <= Minutes(slot.End()) <= 5999 - n
  }

  lemma {:induction false} RoomIsEnough(p: Progress, owner: Endpoint, deeds: seq<Deed>, b: Booking)
    requires p.core.Shaped() && Readable(b.timeSlot) && RoomFor(b.timeSlot, Travel(deeds))
    ensures ReadableAlong(p, owner, deeds, b)
    decreases deeds
  {
    hide Perform, Shift, Readable;
    if deeds != [] && Perform(p, owner, deeds[0]).Some? {
      var next := After(p, owner, deeds[0], b);
      if deeds[0].Move? {
        var offset := deeds[0].offset;
        SplitReadable(Minutes(b.timeSlot.Start()) + offset, Minutes(b.timeSlot.End()) + offset, b.timeSlot.day);
      }
      RoomIsEnough(Perform(p, owner, deeds[0]).value, owner, deeds[1..], next);
    }
  }

  /** The theorem with a condition that can be checked before the run: the offsets, all taken
      together, keep a readable booking between 0:00 and 99:59. */
  lemma ShiftsAddUpInRange(p: Progress, i: nat, name: string, owner: Endpoint, b: Booking, deeds: seq<Deed>)
    requires OnTrack(p, i, name, owner, b) && p.moved == 0 && Supplied(p.core.facilities, owner, p.id, name, deeds)
    requires Readable(b.timeSlot) && RoomFor(b.timeSlot, Travel(deeds))
    ensures PerformAll(p, owner, deeds).None? <==> exists deed <- deeds :: Fatal(deed)
    ensures match PerformAll(p, owner, deeds)
            case None => true
            case Some(end) =>
              exists slot :: SlotAfter(slot, b.timeSlot, end.moved)
                             && Holding(end.core.facilities, i, Booking(end.id, b.userInfo, slot))
  {
    hide OnTrack, Supplied, ReadableAlong, PerformAll, Readable, RoomFor, Travel, Holding, Fatal;
    assert p.core.Shaped() by { TrackShaped(p, i, name, owner, b); }
    RoomIsEnough(p, owner, deeds, b);
    ShiftsAddUp(p, i, name, owner, b, b.timeSlot, deeds);
  }

  lemma TrackShaped(p: Progress, i: nat, name: string, owner: Endpoint, b: Booking)
    requires OnTrack(p, i, name, owner, b)
    ensures p.core.Shaped()
  {
  }

  lemma AfterOther(p: Progress, owner: Endpoint, deed: Deed, b: Booking)
    requires p.core.Shaped() && deed.Other?
    ensures After(p, owner, deed, b) == b
  {
  }

  lemma AfterUser(p: Progress, owner: Endpoint, deed: Deed, b: Booking)
    requires p.core.Shaped()
    ensures After(p, owner, deed, b).userInfo == b.userInfo
  {
  }
}
