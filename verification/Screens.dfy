/** What the user sees after each operation, and that it is what the server then holds. */
module Screens {
  import opened Basics
  import opened TimeSlots
  import opened Bookings
  import opened Messages
  import opened Text
  import opened ClientText
  import opened ServerModel
  import opened Effects
  import opened Identifiers
  import opened Repetition
  import opened Monitors
  import opened Users
  import opened ResponseParser
  import opened DetailsParser
  import opened ReplyTexts
  import opened ShiftBooking
  import opened Shifts
  import opened Promises
  import opened Replies

  // ---------- booking ----------

  /** After a booking request the user sees the booking the server now holds under the ID, or
      why there is none and nothing has changed. */
  lemma BookingScreen(core: Core, m: RequestMessage, client: Endpoint, env: Env)
    requires core.Shaped() && FromInt(m.requestType) == WRITE && Requested(m, env).Some?
    requires '\n' !in env.uuid && '\n' !in client.address
    ensures var b, r := Requested(m, env).value, Execute(core, m, client, env);
            var i := FacilityIndex(core.facilities, b.facilityName);
            r.Executed? &&
            var screen := BookingShown(r.response.data.value);
            if i == |core.facilities| then r.core == core && screen == ["Error", "Facility not found"]
            else if !IsAvailable(core.facilities[i].calendar, b.slot) then
              r.core == core && screen == ["Error", "Facility not available at the requested time"]
            else
              var held := Booking(env.uuid, UserInfo(client), b.slot);
              && Holding(r.core.facilities, i, held) && r.core.facilities[i].name == b.facilityName
              && ('\n' !in b.facilityName ==> screen == BookingBox(held, b.facilityName))
  {
    hide ParseBooking, IsAvailable, Book, BookedText, UserInfo, ErrorText, Everything, BookingShown, BookingBox,
         Unbroken;
    var b := Requested(m, env).value;
    var i := FacilityIndex(core.facilities, b.facilityName);
    NotFoundOnScreen();
    TakenOnScreen();
    if i < |core.facilities| {
      BookAdds(core.facilities[i].calendar, env.uuid, UserInfo(client), b.slot);
      if '\n' !in b.facilityName {
        OnOneLineAll(b.facilityName, client, b.slot, env.uuid);
        BookingIsShown(Booking(env.uuid, UserInfo(client), b.slot), b.facilityName);
      }
    }
  }

  lemma NotFoundOnScreen()
    ensures var t, shown := ErrorText("Facility not found"), ["Error", "Facility not found"];
            BookingShown(t) == shown && UpdateShown(t) == shown && DeleteShown(t) == shown && RatingShown(t) == shown
  {
    hide BookingShown, UpdateShown, DeleteShown, RatingShown, MonitorShown, RateShown, NamesShown, ErrorText;
    ErrorIsShown("Facility not found");
  }

  lemma TakenOnScreen()
    ensures var message := "Facility not available at the requested time";
            var t, shown := ErrorText(message), ["Error", message];
            BookingShown(t) == shown && UpdateShown(t) == shown
  {
    hide BookingShown, UpdateShown, DeleteShown, RatingShown, MonitorShown, RateShown, NamesShown, ErrorText;
    ErrorIsShown("Facility not available at the requested time");
  }

  /** The same for an update. The reply also carries, on its own line, the ID of the booking
      that was replaced, and that ID is the caller's no longer; or null if there was none. */
  lemma UpdateScreen(core: Core, m: RequestMessage, client: Endpoint, env: Env)
    requires core.Shaped() && UniqueIDs(core.facilities)
    requires FromInt(m.requestType) == UPDATE && Requested(m, env).Some?
    requires '\n' !in env.uuid && '\n' !in client.address && '\n' !in Requested(m, env).value.previous
    ensures var b, user, r := Requested(m, env).value, UserInfo(client), Execute(core, m, client, env);
            var i := FacilityIndex(core.facilities, b.facilityName);
            r.Executed? &&
            var screen := UpdateShown(r.response.data.value);
            if i == |core.facilities| then r.core == core && screen == ["Error", "Facility not found"]
            else if !IsAvailable(core.facilities[i].calendar, b.slot) then
              r.core == core && screen == ["Error", "Facility not available at the requested time"]
            else
              var held := Booking(env.uuid, user, b.slot);
              && Holding(r.core.facilities, i, held) && r.core.facilities[i].name == b.facilityName
              && (b.previous != env.uuid ==> !Has(r.core.facilities[i].calendar, b.previous, user))
              && ('\n' !in b.facilityName ==>
                    && screen == UpdateBox(held, b.facilityName)
                    && LastOf(Body(r.response.data.value), "newBookingID:") == held.confirmationID
                    && LastOf(Body(r.response.data.value), "oldBookingID:")
                       == if Has(core.facilities[i].calendar, b.previous, user) then b.previous else "null")
  {
    hide ParseUpdate, JavaSplit, IsAvailable, Book, Remove, UpdatedText, UserInfo, ErrorText, Everything, UpdateShown,
         UpdateBox, Has, UniqueIDs, LastOf, Body, UpdateBooking;
    var b, user := Requested(m, env).value, UserInfo(client);
    var i := FacilityIndex(core.facilities, b.facilityName);
    UpdateExecuted(core, b.previous, b.facilityName, b.slot, client, m.requestID, env, m.data.value);
    assert m == RequestMessage(OpCode(UPDATE), m.requestID, Some(m.data.value));
    UpdateBookingScreen(core, m, b, client, env);
  }

  lemma UpdateBookingScreen(core: Core, m: RequestMessage, b: BookingDetails, client: Endpoint, env: Env)
    requires core.Shaped() && UniqueIDs(core.facilities)
    requires '\n' !in env.uuid && '\n' !in client.address && '\n' !in b.previous
    ensures var user, r := UserInfo(client), UpdateBooking(core, m, b, client, env);
            var i := FacilityIndex(core.facilities, b.facilityName);
            var screen := UpdateShown(r.response.data.value);
            if i == |core.facilities| then r.core == core && screen == ["Error", "Facility not found"]
            else if !IsAvailable(core.facilities[i].calendar, b.slot) then
              r.core == core && screen == ["Error", "Facility not available at the requested time"]
            else
              var held := Booking(env.uuid, user, b.slot);
              && Holding(r.core.facilities, i, held) && r.core.facilities[i].name == b.facilityName
              && (b.previous != env.uuid ==> !Has(r.core.facilities[i].calendar, b.previous, user))
              && ('\n' !in b.facilityName ==>
                    && screen == UpdateBox(held, b.facilityName)
                    && LastOf(Body(r.response.data.value), "newBookingID:") == held.confirmationID
                    && LastOf(Body(r.response.data.value), "oldBookingID:")
                       == if Has(core.facilities[i].calendar, b.previous, user) then b.previous else "null")
  {
    hide IsAvailable, Book, Remove, UpdatedText, UserInfo, ErrorText, Everything, UpdateShown, UpdateBox, Has,
         UniqueIDs, LastOf, Body, IsError, Unbroken;
    var fs, user := core.facilities, UserInfo(client);
    var i := FacilityIndex(fs, b.facilityName);
    NotFoundOnScreen();
    TakenOnScreen();
    if i < |fs| && IsAvailable(fs[i].calendar, b.slot) {
      MoveStored(fs, i, b, user, env.uuid);
      if '\n' !in b.facilityName {
        MoveShown(b, RemovedID(fs[i].calendar, b.previous, user), client, env.uuid);
      }
    }
  }

  lemma MoveShown(b: BookingDetails, previous: string, client: Endpoint, id: string)
    requires '\n' !in id && '\n' !in client.address && '\n' !in b.facilityName && '\n' !in previous
    ensures var t := UpdatedText(previous, id, UserInfo(client), b.facilityName, b.slot);
            && UpdateShown(t) == UpdateBox(Booking(id, UserInfo(client), b.slot), b.facilityName)
            && LastOf(Body(t), "newBookingID:") == id && LastOf(Body(t), "oldBookingID:") == previous
  {
    hide UpdatedText, UserInfo, UpdateShown, UpdateBox, LastOf, Body, IsError, Unbroken;
    OnOneLineAll(b.facilityName, client, b.slot, id);
    UpdateIsShown(previous, Booking(id, UserInfo(client), b.slot), b.facilityName);
  }

  lemma OnOneLineAll(name: string, client: Endpoint, slot: TimeSlot, id: string)
    requires '\n' !in name && '\n' !in client.address && '\n' !in id
    ensures Unbroken(Booking(id, UserInfo(client), slot), name)
  {
    UserOnOneLine(client);
  }

  lemma MoveStored(fs: seq<Facility>, i: nat, b: BookingDetails, user: string, id: string)
    requires i < |fs| && fs[i].calendar.Shaped() && UniqueIDs(fs)
    ensures var c := Book(Remove(fs[i].calendar, b.previous, user), id, user, b.slot);
            && Booking(id, user, b.slot) in Everything(c.booked)
            && (b.previous != id ==> !Has(c, b.previous, user))
  {
    hide Book, Remove, Everything, Has, UniqueIDs;
    var c := Remove(fs[i].calendar, b.previous, user);
    BookAdds(c, id, user, b.slot);
    RemoveForgets(fs, i, b.previous, user);
    if b.previous != id {
      BookedElse(c, id, b.previous, user, b.slot);
    }
  }

  // ---------- asking for a booking ----------

  /** Asking for an ID shows a booking that is held under it, and that booking if IDs are
      unique, or that there is none. */
  lemma QueryScreen(core: Core, id: string, requestID: int32, client: Endpoint, env: Env)
    requires core.Shaped() && id != "" && ',' !in id
    ensures var r := Execute(core, Query(id, requestID), client, env);
            && r.Executed? && r.core == core
            && (!Exists(core.facilities, id) ==>
                  BookingShown(r.response.data.value) == ["Error", "Booking not found"])
            && (UniqueIDs(core.facilities) ==>
                  forall i: nat, b :: Holding(core.facilities, i, b) && b.confirmationID == id
                                      && Unbroken(b, core.facilities[i].name)
                                      ==> BookingShown(r.response.data.value) == BookingBox(b, core.facilities[i].name))
  {
    hide Execute, BookingShown, BookingBox, BookingAnswer, BookingText, Everything, UniqueIDs, Unbroken, ErrorText;
    QueryAnswered(core, id, client, requestID, env);
    AnswerStarts(core.facilities, id);
    NoBookingOnScreen();
    if UniqueIDs(core.facilities) {
      forall i: nat, b | Holding(core.facilities, i, b) && b.confirmationID == id
                         && Unbroken(b, core.facilities[i].name)
        ensures BookingShown(BookingAnswer(core.facilities, id)) == BookingBox(b, core.facilities[i].name)
      {
        AnswerFinds(core.facilities, i, b);
        BookingIsShown(b, core.facilities[i].name);
      }
    }
  }

  lemma NoBookingOnScreen()
    ensures BookingShown(ErrorText("Booking not found")) == ["Error", "Booking not found"]
  {
    hide BookingShown, UpdateShown, DeleteShown, RatingShown, MonitorShown, RateShown, NamesShown, ErrorText;
    ErrorIsShown("Booking not found");
  }

  // ---------- deleting ----------

  /** With unique IDs, a user has a booking with the ID of a held one in its facility iff it is
      the endpoint that made it. */
  lemma OwnerOnly(fs: seq<Facility>, i: nat, b: Booking, owner: Endpoint, client: Endpoint)
    requires UniqueIDs(fs) && Holding(fs, i, b) && b.userInfo == UserInfo(owner)
    ensures Has(fs[i].calendar, b.confirmationID, UserInfo(client)) <==> client == owner
  {
    hide UserInfo, Has;
    UserInfoInjective(client, owner);
    RemovesHeld(fs, i, b);
    HasIff(fs[i].calendar, b.confirmationID, UserInfo(client));
    if Has(fs[i].calendar, b.confirmationID, UserInfo(client)) {
      var x :| x in Everything(fs[i].calendar.booked) && Owned(x, b.confirmationID, UserInfo(client));
      SameBooking(fs, i, b, x);
    }
  }

  lemma SameBooking(fs: seq<Facility>, i: nat, b: Booking, x: Booking)
    requires UniqueIDs(fs) && Holding(fs, i, b) && Holding(fs, i, x) && b.confirmationID == x.confirmationID
    ensures b == x
  {
    hide Everything;
    var p := HoldingPlace(fs, i, b);
    var q := HoldingPlace(fs, i, x);
    assert IDAt(fs, p) == IDAt(fs, q);
  }

  /** The client asks for a booking, composes the deletion from the answer and sends it. */
  function Cancel(core: Core, id: string, client: Endpoint, requestID: int32, env: Env): (r: Executed)
    requires core.Shaped()
    ensures r.Executed? ==> r.core.Shaped() && r.response.data.Some?
  {
    hide Execute, DeleteData;
    match Execute(core, Query(id, requestID), client, env)
    case Stopped => Stopped
    case Executed(core1, answer, _) =>
      Execute(core1, RequestMessage(OpCode(DELETE), requestID, Some(DeleteData(id, answer.data.value))), client, env)
  }

  /** End to end: the endpoint that made the booking takes exactly it out and sees its ID; for
      any other endpoint nothing changes, and it sees null. */
  lemma CancelIsExact(core: Core, i: nat, b: Booking, owner: Endpoint, client: Endpoint, requestID: int32, env: Env)
    requires core.Shaped() && UniqueIDs(core.facilities) && Holding(core.facilities, i, b)
    requires b.userInfo == UserInfo(owner) && FacilityIndex(core.facilities, core.facilities[i].name) == i
    requires Tellable(b.confirmationID, b.userInfo, core.facilities[i].name) && core.facilities[i].name != ""
    requires '\n' !in client.address
    ensures var r := Cancel(core, b.confirmationID, client, requestID, env);
            && r.Executed? && |r.core.facilities| == |core.facilities|
            && (client != owner ==> r.core.facilities == core.facilities)
            && (client == owner ==>
                  Everything(r.core.facilities[i].calendar.booked) + multiset{b}
                  == Everything(core.facilities[i].calendar.booked)
                  && forall j :: 0 <= j < |core.facilities| && j != i ==> r.core.facilities[j] == core.facilities[j])
            && DeleteShown(r.response.data.value)
               == ["Booking Deleted", "Old Booking ID: " + (if client == owner then b.confirmationID else "null"),
                   "User: " + UserInfo(client)]
  {
    hide Execute, DeleteShown, BookingAnswer, BookingText, Everything, UniqueIDs, UserInfo, JavaSplit, Has, Remove,
         Extract, Tellable;
    var fs, id, name := core.facilities, b.confirmationID, core.facilities[i].name;
    Deletable(id, b.userInfo, name);
    QueryAnswered(core, id, client, requestID, env);
    AnswerFinds(fs, i, b);
    ClientReads(b, name);
    SplitTwo(id, name);
    var m := RequestMessage(OpCode(DELETE), requestID, Some(id + "," + name));
    DeleteReply(core, m, client, env);
    OwnerOnly(fs, i, b, owner, client);
    DeletionStored(core, m, i, id, client, env);
    if client == owner {
      RemovesHeld(fs, i, b);
      RemoveTakes(fs[i].calendar, id, b.userInfo);
    }
    UserOnOneLine(client);
    DeletionIsShown(if client == owner then id else "null", UserInfo(client));
  }

  lemma Deletable(id: string, user: string, name: string)
    requires Tellable(id, user, name)
    ensures id != "" && ',' !in id && '\n' !in id && ',' !in name && '\n' !in name
  {
  }

  lemma DeletionStored(core: Core, m: RequestMessage, i: nat, id: string, client: Endpoint, env: Env)
    requires core.Shaped() && FromInt(m.requestType) == DELETE && m.data.Some?
    requires |JavaSplit(m.data.value)| >= 2 && JavaSplit(m.data.value)[0] == id
    requires i == FacilityIndex(core.facilities, JavaSplit(m.data.value)[1]) < |core.facilities|
    ensures Execute(core, m, client, env).Executed?
    ensures Execute(core, m, client, env).core
         == SetCalendar(core, i, Remove(core.facilities[i].calendar, id, UserInfo(client)))
  {
    hide JavaSplit, Remove, Has, UserInfo;
  }

  // ---------- monitoring, the list of facilities ----------

  /** Registering for a facility adds the monitor and shows facility and duration; for an
      unknown one nothing changes. */
  lemma MonitorScreen(core: Core, name: string, seconds: int, requestID: int32, client: Endpoint, env: Env)
    requires core.Shaped() && ',' !in name && '\n' !in name && InInt32(seconds)
    ensures var m := RequestMessage(OpCode(MONITOR), requestID, Some(MonitorData(name, seconds)));
            var r := Execute(core, m, client, env);
            r.Executed? &&
            var screen := MonitorShown(r.response.data.value);
            if Known(core.facilities, name) then
              && r.core == core.(monitors := core.monitors + [Monitor(name, requestID, client, env.now, seconds)])
              && screen == ["Monitoring Registration", "Facility: " + name, "Duration: " + PrintInt(seconds) + "s"]
            else r.core == core && screen == ["Error", "Invalid facilityName provided"]
  {
    hide JavaSplit, ParseInt, PrintInt, MonitorShown, ErrorText;
    ParsePrint(seconds);
    PrintedClean(seconds);
    PrintedOnOneLine(seconds);
    SplitThree("register", name, PrintInt(seconds));
    assert "register," + name + "," + PrintInt(seconds) == "register" + "," + name + "," + PrintInt(seconds);
    RegistrationIsShown(name, PrintInt(seconds));
    NoFacilityOnScreen();
  }

  lemma NoFacilityOnScreen()
    ensures MonitorShown(ErrorText("Invalid facilityName provided")) == ["Error", "Invalid facilityName provided"]
  {
    hide BookingShown, UpdateShown, DeleteShown, RatingShown, MonitorShown, RateShown, NamesShown, ErrorText;
    ErrorIsShown("Invalid facilityName provided");
  }

  /** Asking for the facilities lists all of them, in the server's order. */
  lemma NamesScreen(core: Core, requestID: int32, client: Endpoint, env: Env)
    requires core.Shaped()
    requires forall f <- core.facilities :: f.name != "" && ',' !in f.name && '\n' !in f.name
    ensures var r := Execute(core, RequestMessage(OpCode(READ), requestID, Some(NAMES_QUERY)), client, env);
            r.Executed? && r.core == core
            && NamesShown(r.response.data.value) == ["Facility Names"] + NamesOf(core.facilities)
  {
    hide JavaSplit, NamesShown, FacilityNames, AvailabilityText, WantedDays, BookingAnswer, RatingAnswer;
    SplitTwo("facility", "ALL");
    assert "facility" + "," + "ALL" == "facility,ALL";
    NamesAreShown(core.facilities);
  }

  // ---------- requests nobody can make sense of ----------

  /** The kind of a request, the first part of its data, is one the server knows. */
  predicate KnownKind(op: Operation, kind: string) {
    match op
    case READ => kind in ["facility", "booking", "rating"]
    case UPDATE => kind in ["booking", "rating"]
    case MONITOR => kind == "register"
    case _ => true
  }

  /** A request whose kind or code is unknown, and a query or registration of one part, are
      answered with the reason, and nothing changes. */
  lemma UnknownKindScreen(core: Core, m: RequestMessage, client: Endpoint, env: Env)
    requires core.Shaped() && m.data.Some? && JavaSplit(m.data.value) != []
    requires (|JavaSplit(m.data.value)| == 1 && FromInt(m.requestType) in {READ, MONITOR})
             || !KnownKind(FromInt(m.requestType), JavaSplit(m.data.value)[0])
             || FromInt(m.requestType) in {NONE, RATING}
    ensures var r := Execute(core, m, client, env);
            && r.Executed? && r.core == core
            && BookingShown(r.response.data.value)
               == ["Error", match FromInt(m.requestType)
                            case UPDATE => "Invalid update type"
                            case READ => "Invalid request format"
                            case MONITOR => "Invalid request format"
                            case _ => "Unknown operation"]
  {
    hide JavaSplit, BookingShown, ErrorText, ParseUpdate, UpdateBooking, RateFacility, BookingAnswer, RatingAnswer,
         AvailabilityText, FacilityNames, WantedDays, ParseInt, PrintInt;
    UnknownOnScreen();
  }

  lemma UnknownOnScreen()
    ensures BookingShown(ErrorText("Invalid update type")) == ["Error", "Invalid update type"]
    ensures BookingShown(ErrorText("Invalid request format")) == ["Error", "Invalid request format"]
    ensures BookingShown(ErrorText("Unknown operation")) == ["Error", "Unknown operation"]
  {
    hide BookingShown, UpdateShown, DeleteShown, RatingShown, MonitorShown, RateShown, NamesShown, ErrorText;
    ErrorIsShown("Invalid update type");
    ErrorIsShown("Invalid request format");
    ErrorIsShown("Unknown operation");
  }
}
