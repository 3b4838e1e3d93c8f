/** What a reply tells: it reports success exactly when the request was carried out, and the
    client shows from it what the server then holds. */
module Replies {
  import opened TimeSlots
  import opened Bookings
  import opened Messages
  import opened Text
  import opened ServerModel
  import opened Effects
  import opened Repetition
  import opened Monitors
  import opened ReplyTexts
  import opened ShiftBooking
  import opened Shifts

  // ---------- success means that the request was carried out ----------

  /** Some facility has a booking with this ID. */
  ghost predicate Exists(fs: seq<Facility>, id: string) {
    exists i: nat, b :: Holding(fs, i, b) && b.confirmationID == id
  }

  /** A booking that parses, names a known facility and asks for a slot that is available. */
  predicate Grantable(core: Core, m: RequestMessage, env: Env)
    requires core.Shaped()
  {
    Requested(m, env).Some? &&
    var b := Requested(m, env).value;
    var i := FacilityIndex(core.facilities, b.facilityName);
    i < |core.facilities| && IsAvailable(core.facilities[i].calendar, b.slot)
  }

  /** The list of all facilities, or a known facility, booking or rating. */
  ghost predicate Answerable(fs: seq<Facility>, parts: seq<string>) {
    |parts| >= 2 &&
    (|| (parts[0] == "facility" && (parts[1] == "ALL" || Known(fs, parts[1])))
     || (parts[0] == "booking" && Exists(fs, parts[1]))
     || (parts[0] == "rating" && Known(fs, parts[1])))
  }

  /** The server can do what the request asks for. */
  ghost predicate Fulfillable(core: Core, m: RequestMessage, env: Env)
    requires core.Shaped()
  {
    match FromInt(m.requestType)
    case READ => m.data.Some? && Answerable(core.facilities, JavaSplit(m.data.value))
    case WRITE => Grantable(core, m, env)
    case UPDATE => Grantable(core, m, env) || ValidRating(core, m, env)
    case DELETE =>
      m.data.Some? && |JavaSplit(m.data.value)| >= 2 && Known(core.facilities, JavaSplit(m.data.value)[1])
    case MONITOR => ValidRegistration(core, m)
    case _ => false
  }

  predicate Failure(r: RequestMessage) { r.data.Some? && "status:ERROR\nmessage:" <= r.data.value }

  lemma Starts(head: string, rest: string)
    requires "status:SUCCESS" <= head
    ensures "status:SUCCESS" <= head + rest
  {
    assert (head + rest)[..14] == head[..14];
  }

  lemma ErrorStarts(message: string)
    ensures "status:ERROR\nmessage:" <= ErrorText(message) && !("status:SUCCESS" <= ErrorText(message))
  {
    assert ErrorText(message)[..21] == "status:ERROR\nmessage:";
    assert "status:SUCCESS"[7] != ErrorText(message)[7];
  }

  lemma {:induction false} ReportStarts(fields: seq<Field>)
    ensures "status:SUCCESS" <= Report(fields)
  {
    if fields != [] {
      var f := fields[|fields| - 1];
      ReportStarts(fields[..|fields| - 1]);
      Starts(Report(fields[..|fields| - 1]), "\n" + f.tag);
      Starts(Report(fields[..|fields| - 1]) + ("\n" + f.tag), f.value);
    }
  }

  lemma BookedStarts(id: string, user: string, name: string, slot: TimeSlot)
    ensures "status:SUCCESS" <= BookedText(id, user, name, slot)
    ensures "status:SUCCESS" <= BookingText(Booking(id, user, slot), name)
  {
    hide Report, BookedText, BookingText, BookingFields;
    var fields := BookingFields(id, user, name, slot);
    BookedReport(id, user, name, slot);
    ReportStarts(fields);
    Starts(Report(fields), "\n");
  }

  lemma {:induction false} AnswerIff(fs: seq<Facility>, id: string)
    ensures if Exists(fs, id) then
              exists i: nat, b :: Holding(fs, i, b) && b.confirmationID == id
                                  && BookingAnswer(fs, id) == BookingText(b, fs[i].name)
            else BookingAnswer(fs, id) == ErrorText("Booking not found")
  {
    hide BookingText, ErrorText, BookingInfo, Everything;
    if fs != [] {
      AnswerIff(fs[1..], id);
      InfoIff(fs[0].calendar, id);
      match BookingInfo(fs[0].calendar, id)
      case Some(b) => assert Holding(fs, 0, b) && b.confirmationID == id;
      case None =>
        if Exists(fs, id) {
          var i: nat, b :| Holding(fs, i, b) && b.confirmationID == id;
          assert i > 0;
          assert Holding(fs[1..], i - 1, b);
        }
        if Exists(fs[1..], id) {
          var i: nat, b :| Holding(fs[1..], i, b) && b.confirmationID == id
                           && BookingAnswer(fs[1..], id) == BookingText(b, fs[1..][i].name);
          assert Holding(fs, i + 1, b);
        }
    }
  }

  lemma InfoIff(c: Calendar, id: string)
    ensures match BookingInfo(c, id)
            case Some(b) => b in Everything(c.booked) && b.confirmationID == id
            case None => forall b :: b in Everything(c.booked) ==> b.confirmationID != id
  {
    InfoFromIff(c.booked, id);
  }

  lemma {:induction false} InfoFromIff(days: seq<seq<Booking>>, id: string)
    ensures match LookupFrom(days, id)
            case Some(b) => b in Everything(days) && b.confirmationID == id
            case None => forall b :: b in Everything(days) ==> b.confirmationID != id
  {
    if days != [] {
      LookupIff(days[0], id);
      InfoFromIff(days[1..], id);
    }
  }

  lemma {:induction false} LookupIff(bs: seq<Booking>, id: string)
    ensures match Lookup(bs, id)
            case Some(b) => b in bs && b.confirmationID == id
            case None => forall b <- bs :: b.confirmationID != id
  {
    if bs != [] {
      assert bs == [bs[0]] + bs[1..];
      LookupIff(bs[1..], id);
    }
  }

  lemma AnswerStarts(fs: seq<Facility>, id: string)
    ensures "status:SUCCESS" <= BookingAnswer(fs, id) <==> Exists(fs, id)
    ensures !Exists(fs, id) ==> BookingAnswer(fs, id) == ErrorText("Booking not found")
  {
    hide BookingAnswer, BookingText, ErrorText, Everything;
    AnswerIff(fs, id);
    ErrorStarts("Booking not found");
    if Exists(fs, id) {
      var i: nat, b :| Holding(fs, i, b) && b.confirmationID == id
                       && BookingAnswer(fs, id) == BookingText(b, fs[i].name);
      BookedStarts(b.confirmationID, b.userInfo, fs[i].name, b.timeSlot);
    }
  }

  lemma ReadFulfilled(core: Core, m: RequestMessage)
    requires core.Shaped() && FromInt(m.requestType) == READ && ExecuteRead(core, m).Executed?
    ensures var r := ExecuteRead(core, m);
            && (Success(r.response) <==> m.data.Some? && Answerable(core.facilities, JavaSplit(m.data.value)))
            && (Success(r.response) || Failure(r.response))
  {
    hide AvailabilityText, BookingAnswer, RatingAnswer, FacilityNames, JavaSplit, WantedDays, ErrorText, Exists;
    var parts := JavaSplit(m.data.value);
    ErrorStarts("Invalid request format");
    ErrorStarts("Booking not found");
    Starts("status:SUCCESS\nfacilityNames:", FacilityNames(core.facilities));
    if |parts| >= 2 {
      AnswerStarts(core.facilities, parts[1]);
      RatingStarts(core, parts[1]);
      if WantedDays(parts[2..]).Some? {
        AvailabilityStarts(core, parts[1], WantedDays(parts[2..]).value);
      }
    }
  }

  lemma AvailabilityStarts(core: Core, name: string, wanted: set<Day>)
    requires core.Shaped()
    ensures var t := AvailabilityText(core, name, wanted);
            if Known(core.facilities, name) then "status:SUCCESS" <= t
            else "status:ERROR\nmessage:" <= t && !("status:SUCCESS" <= t)
  {
    hide DaysText, ErrorText;
    ErrorStarts("Facility not found");
    if Known(core.facilities, name) {
      Starts("status:SUCCESS\nfacility:", name);
      Starts("status:SUCCESS\nfacility:" + name, "\navailableTimeslots:\n");
      Starts("status:SUCCESS\nfacility:" + name + "\navailableTimeslots:\n",
             DaysText(core.facilities[FacilityIndex(core.facilities, name)].calendar, WEEK, wanted));
    }
  }

  lemma RatingStarts(core: Core, name: string)
    ensures var t := RatingAnswer(core, name);
            if Known(core.facilities, name) then "status:SUCCESS" <= t
            else "status:ERROR\nmessage:" <= t && !("status:SUCCESS" <= t)
  {
    hide Tenths, ErrorText;
    ErrorStarts("Facility not found");
    if Known(core.facilities, name) {
      Starts("status:SUCCESS\nfacility:", name);
      Starts("status:SUCCESS\nfacility:" + name, "\nrating:");
      Starts("status:SUCCESS\nfacility:" + name + "\nrating:",
             Tenths(core.facilities[FacilityIndex(core.facilities, name)].rating.average));
    }
  }

  lemma WriteFulfilled(core: Core, m: RequestMessage, client: Endpoint, env: Env)
    requires core.Shaped() && FromInt(m.requestType) == WRITE
    ensures var r := ExecuteWrite(core, m, client, env);
            && (Success(r.response) <==> Grantable(core, m, env))
            && (Success(r.response) || (Failure(r.response) && r.core == core))
  {
    hide ParseBooking, IsAvailable, Book, BookedText, UserInfo, ErrorText;
    ErrorStarts(env.exceptionText);
    ErrorStarts("Facility not found");
    ErrorStarts("Facility not available at the requested time");
    if Grantable(core, m, env) {
      var b := Requested(m, env).value;
      BookedStarts(env.uuid, UserInfo(client), b.facilityName, b.slot);
    }
  }

  lemma UpdateFulfilled(core: Core, m: RequestMessage, client: Endpoint, env: Env)
    requires core.Shaped() && FromInt(m.requestType) == UPDATE
    ensures var r := ExecuteUpdate(core, m, client, env);
            && (Success(r.response) <==> Grantable(core, m, env) || ValidRating(core, m, env))
            && (Success(r.response) || (Failure(r.response) && r.core == core))
  {
    hide ParseUpdate, IsAvailable, Book, Remove, UpdatedText, UserInfo, ErrorText, RatedText, AddRating, JavaSplit, Has;
    ErrorStarts(env.exceptionText);
    ErrorStarts("Invalid update type");
    ErrorStarts("Facility not found");
    ErrorStarts("Facility not available at the requested time");
    if m.data.Some? && ParseUpdate(m.data.value, env).BadUpdate? {
      ErrorStarts(ParseUpdate(m.data.value, env).message);
    }
    if Grantable(core, m, env) {
      var b := Requested(m, env).value;
      var c := core.facilities[FacilityIndex(core.facilities, b.facilityName)].calendar;
      SuccessText(RemovedID(c, b.previous, UserInfo(client)), env.uuid, UserInfo(client), b.facilityName, b.slot);
    }
    if ValidRating(core, m, env) {
      RatedStarts(UserInfo(client), JavaSplit(m.data.value)[1], env.parsedRating.value);
    }
  }

  lemma RatedStarts(user: string, name: string, rating: real)
    ensures "status:SUCCESS" <= RatedText(user, name, rating)
  {
    hide Tenths;
    Starts("status:SUCCESS\nuser:", user);
    Starts("status:SUCCESS\nuser:" + user, "\nfacility:");
    Starts("status:SUCCESS\nuser:" + user + "\nfacility:", name);
    Starts("status:SUCCESS\nuser:" + user + "\nfacility:" + name, "\nrating:");
    Starts("status:SUCCESS\nuser:" + user + "\nfacility:" + name + "\nrating:", Tenths(rating));
  }

  lemma DeleteFulfilled(core: Core, m: RequestMessage, client: Endpoint, env: Env)
    requires core.Shaped() && FromInt(m.requestType) == DELETE
    ensures var r := ExecuteDelete(core, m, client, env);
            && (Success(r.response) <==> (m.data.Some? && |JavaSplit(m.data.value)| >= 2
                                          && Known(core.facilities, JavaSplit(m.data.value)[1])))
            && (Success(r.response) || (Failure(r.response) && r.core == core))
  {
    hide JavaSplit, Remove, RemovedID, UserInfo, ErrorText;
    ErrorStarts(env.exceptionText);
    ErrorStarts("Facility not found");
    if m.data.Some? && |JavaSplit(m.data.value)| >= 2 && Known(core.facilities, JavaSplit(m.data.value)[1]) {
      var parts, user := JavaSplit(m.data.value), UserInfo(client);
      var id := RemovedID(core.facilities[FacilityIndex(core.facilities, parts[1])].calendar, parts[0], user);
      Starts("status:SUCCESS\nbookingID:", id);
      Starts("status:SUCCESS\nbookingID:" + id, "\nuser:");
      Starts("status:SUCCESS\nbookingID:" + id + "\nuser:", user);
    }
  }

  lemma MonitorFulfilled(core: Core, m: RequestMessage, client: Endpoint, env: Env)
    requires core.Shaped() && FromInt(m.requestType) == MONITOR
    ensures var r := ExecuteMonitor(core, m, client, env);
            && (Success(r.response) <==> ValidRegistration(core, m))
            && (Success(r.response) || (Failure(r.response) && r.core == core))
  {
    hide JavaSplit, ParseInt, PrintInt, ErrorText;
    ErrorStarts(env.exceptionText);
    ErrorStarts("Invalid request format");
    ErrorStarts("Invalid facilityName provided");
    if ValidRegistration(core, m) {
      var parts := JavaSplit(m.data.value);
      var interval := PrintInt(ParseInt(parts[2]).value);
      Starts("status:SUCCESS\nfacility:", parts[1]);
      Starts("status:SUCCESS\nfacility:" + parts[1], "\ninterval:");
      Starts("status:SUCCESS\nfacility:" + parts[1] + "\ninterval:", interval);
    }
  }

  /** Every reply begins with one of the two statuses. It is that of success iff the server
      could do what was asked, and after a failure nothing has changed. */
  lemma SuccessIff(core: Core, m: RequestMessage, client: Endpoint, env: Env)
    requires core.Shaped() && Execute(core, m, client, env).Executed?
    ensures var r := Execute(core, m, client, env);
            && (Success(r.response) <==> Fulfillable(core, m, env))
            && (Success(r.response) || (Failure(r.response) && r.core == core))
  {
    hide ExecuteRead, ExecuteWrite, ExecuteUpdate, ExecuteDelete, ExecuteMonitor, Grantable, ValidRating,
         ValidRegistration, Answerable, JavaSplit, ErrorText;
    match FromInt(m.requestType)
    case READ => ReadFulfilled(core, m);
    case WRITE => WriteFulfilled(core, m, client, env);
    case UPDATE => UpdateFulfilled(core, m, client, env);
    case DELETE => DeleteFulfilled(core, m, client, env);
    case MONITOR => MonitorFulfilled(core, m, client, env);
    case _ => ErrorStarts("Unknown operation");
  }
}
