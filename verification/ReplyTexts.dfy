/** The server's replies as labelled lines, and what the client's parsers find in them. */
module ReplyTexts {
  import opened TimeSlots
  import opened Bookings
  import opened Messages
  import opened Text
  import opened ServerModel
  import opened ResponseParser
  import opened DetailsParser
  import opened AvailabilityDisplay
  import opened ShiftBooking

  predicate Success(r: RequestMessage) { r.data.Some? && "status:SUCCESS" <= r.data.value }

  // ---------- labelled lines ----------

  datatype Field = Field(tag: string, value: string) {
    function Line(): string { tag + value }

    /** Neither part breaks the line. */
    predicate OnOneLine() { tag != "" && '\n' !in tag && '\n' !in value }
  }

  /** The status line and one line for each field. */
  function Report(fields: seq<Field>): (s: string) {
    if fields == [] then "status:SUCCESS"
    else
      var f := fields[|fields| - 1];
      Report(fields[..|fields| - 1]) + ("\n" + f.tag) + f.value
  }

  function LinesOf(fields: seq<Field>): (r: seq<string>)
    ensures |r| == |fields| && forall i :: 0 <= i < |r| ==> r[i] == fields[i].Line()
  {
    if fields == [] then [] else LinesOf(fields[..|fields| - 1]) + [fields[|fields| - 1].Line()]
  }

  predicate Whole(fields: seq<Field>) { forall i :: 0 <= i < |fields| ==> fields[i].OnOneLine() }

  predicate HeadsDiffer(fields: seq<Field>)
    requires Whole(fields)
  {
    forall i, j :: 0 <= i < j < |fields| ==> fields[i].tag[0] != fields[j].tag[0]
  }

  /** Every field stays on its line, and no two labels begin alike. */
  predicate Distinct(fields: seq<Field>) { Whole(fields) && HeadsDiffer(fields) }

  lemma ReportAdd(fields: seq<Field>, f: Field)
    ensures Report(fields + [f]) == Report(fields) + ("\n" + f.tag) + f.value
  {
    assert (fields + [f])[..|fields|] == fields;
  }

  lemma {:induction false} JoinAdd(parts: seq<string>, c: char, last: string)
    requires parts != []
    ensures Join(parts + [last], c) == Join(parts, c) + [c] + last
  {
    var all := parts + [last];
    assert all[1..] == parts[1..] + [last];
    if |parts| == 1 {
      assert all[1..] == [last];
    } else {
      JoinAdd(parts[1..], c, last);
      assert parts[0] + [c] + (Join(parts[1..], c) + [c] + last) == parts[0] + [c] + Join(parts[1..], c) + [c] + last;
    }
  }

  lemma {:induction false} ReportJoins(fields: seq<Field>)
    ensures Report(fields) == Join(["status:SUCCESS"] + LinesOf(fields), '\n')
  {
    hide Join;
    if fields == [] {
      assert ["status:SUCCESS"] + LinesOf(fields) == ["status:SUCCESS"];
      JoinOne("status:SUCCESS");
    } else {
      var front, f := fields[..|fields| - 1], fields[|fields| - 1];
      ReportJoins(front);
      JoinAdd(["status:SUCCESS"] + LinesOf(front), '\n', f.Line());
      assert ["status:SUCCESS"] + LinesOf(fields) == ["status:SUCCESS"] + LinesOf(front) + [f.Line()];
      assert Report(front) + ("\n" + f.tag) + f.value == Report(front) + ['\n'] + f.Line();
    }
  }

  lemma JoinOne(s: string)
    ensures Join([s], '\n') == s
  {
  }

  /** Lines joined, with or without an end of line behind the last, are delivered as they were. */
  lemma {:induction false} PiecesLines(lines: seq<string>, end: string)
    requires lines != [] && (forall line <- lines :: '\n' !in line && line != "") && (end == "" || end == "\n")
    ensures Pieces(Join(lines, '\n') + end, '\n') == lines
  {
    hide Pieces;
    assert lines[0] in lines;
    if |lines| == 1 {
      PieceAlone(lines[0], end);
    } else {
      var rest := Join(lines[1..], '\n');
      assert forall line <- lines[1..] :: line in lines;
      PiecesLines(lines[1..], end);
      PiecesCons(lines[0], '\n', rest + end);
      assert Join(lines, '\n') + end == lines[0] + ['\n'] + (rest + end);
    }
  }

  lemma PieceAlone(line: string, end: string)
    requires '\n' !in line && line != "" && (end == "" || end == "\n")
    ensures Pieces(line + end, '\n') == [line]
  {
    if end == "" {
      assert line + end == line && IndexOf(line, '\n') == |line|;
      assert line[..|line|] == line;
    } else {
      PiecesCons(line, '\n', "");
      assert line + end == line + ['\n'] + "";
      assert Pieces("", '\n') == [];
    }
  }

  lemma BodyBehind(line: string, rest: string)
    requires '\n' !in line
    ensures RestAfter(line + ['\n'] + rest, '\n') == rest
    ensures IsError(line + ['\n'] + rest) <==> "status:ERROR" <= line
  {
    IndexOfFirst(line, '\n', rest);
    assert (line + ['\n'] + rest)[..|line|] == line && (line + ['\n'] + rest)[|line| + 1..] == rest;
  }

  lemma LinesWhole(fields: seq<Field>)
    requires Distinct(fields)
    ensures forall line <- LinesOf(fields) :: '\n' !in line && line != ""
  {
    var lines := LinesOf(fields);
    forall line | line in lines ensures '\n' !in line && line != "" {
      var i :| 0 <= i < |lines| && lines[i] == line;
      assert fields[i].OnOneLine();
    }
  }

  lemma ReportBody(fields: seq<Field>, end: string)
    requires fields != [] && Distinct(fields) && (end == "" || end == "\n")
    ensures !IsError(Report(fields) + end) && Body(Report(fields) + end) == LinesOf(fields)
  {
    hide Pieces, RestAfter, IsError, Join, Report, Distinct, LinesOf;
    var lines := LinesOf(fields);
    LinesWhole(fields);
    ReportJoins(fields);
    JoinFirst("status:SUCCESS", lines);
    assert Report(fields) + end == "status:SUCCESS" + ['\n'] + (Join(lines, '\n') + end);
    BodyBehind("status:SUCCESS", Join(lines, '\n') + end);
    assert "status:SUCCESS"[7] != "status:ERROR"[7];
    PiecesLines(lines, end);
  }

  /** The client takes the report for no error and finds every field. */
  lemma ReportRead(fields: seq<Field>, end: string)
    requires fields != [] && Distinct(fields) && (end == "" || end == "\n")
    ensures !IsError(Report(fields) + end)
    ensures forall k :: 0 <= k < |fields| ==> LastOf(Body(Report(fields) + end), fields[k].tag) == fields[k].value
  {
    hide Body, IsError, LastOf, Report, Distinct;
    ReportBody(fields, end);
    forall k | 0 <= k < |fields| ensures LastOf(LinesOf(fields), fields[k].tag) == fields[k].value {
      FieldFound(fields, k, |fields|);
      assert LinesOf(fields)[..|fields|] == LinesOf(fields);
    }
  }

  lemma JoinFirst(first: string, rest: seq<string>)
    requires rest != []
    ensures Join([first] + rest, '\n') == first + ['\n'] + Join(rest, '\n')
  {
    assert ([first] + rest)[1..] == rest;
  }

  lemma {:induction false} FieldFound(fields: seq<Field>, k: nat, n: nat)
    requires Distinct(fields) && k < n <= |fields|
    ensures LastOf(LinesOf(fields)[..n], fields[k].tag) == fields[k].value
    decreases n
  {
    var lines, tag := LinesOf(fields), fields[k].tag;
    assert lines[..n][..n - 1] == lines[..n - 1];
    assert lines[n - 1] == fields[n - 1].tag + fields[n - 1].value;
    if k < n - 1 {
      assert lines[n - 1][0] == fields[n - 1].tag[0] != tag[0];
      FieldFound(fields, k, n - 1);
    } else {
      assert lines[k][..|tag|] == tag && lines[k][|tag|..] == fields[k].value;
    }
  }

  // ---------- the replies ----------

  /** The fields of an answer about a booking. */
  function BookingFields(id: string, user: string, name: string, slot: TimeSlot): (r: seq<Field>) {
    [Field("bookingID:", id)] + SlotFields(user, name, slot)
  }

  function SlotFields(user: string, name: string, slot: TimeSlot): (r: seq<Field>) {
    [Field("user:", user), Field("facility:", name), Field("day:", DayName(slot.day)),
     Field("startTime:", StartText(slot)), Field("endTime:", EndText(slot))]
  }

  lemma ReportFive(front: seq<Field>, a: Field, b: Field, c: Field, d: Field, e: Field)
    ensures Report(front + [a, b, c, d, e])
            == Report(front) + ("\n" + a.tag) + a.value + ("\n" + b.tag) + b.value + ("\n" + c.tag) + c.value
               + ("\n" + d.tag) + d.value + ("\n" + e.tag) + e.value
  {
    hide Report;
    ReportAdd(front, a);
    ReportAdd(front + [a], b);
    ReportAdd(front + [a] + [b], c);
    ReportAdd(front + [a] + [b] + [c], d);
    ReportAdd(front + [a] + [b] + [c] + [d], e);
    assert front + [a, b, c, d, e] == front + [a] + [b] + [c] + [d] + [e];
  }

  /** The five lines about user, facility and slot behind any others. */
  lemma SlotReport(front: seq<Field>, user: string, name: string, slot: TimeSlot)
    ensures Report(front + SlotFields(user, name, slot))
            == Report(front) + "\nuser:" + user + "\nfacility:" + name + "\nday:" + DayName(slot.day)
               + "\nstartTime:" + StartText(slot) + "\nendTime:" + EndText(slot)
  {
    hide Report, DayName, StartText, EndText;
    ReportFive(front, Field("user:", user), Field("facility:", name), Field("day:", DayName(slot.day)),
               Field("startTime:", StartText(slot)), Field("endTime:", EndText(slot)));
    assert "\n" + "user:" == "\nuser:" && "\n" + "facility:" == "\nfacility:" && "\n" + "day:" == "\nday:";
    assert "\n" + "startTime:" == "\nstartTime:" && "\n" + "endTime:" == "\nendTime:";
  }

  lemma BookedReport(id: string, user: string, name: string, slot: TimeSlot)
    ensures BookedText(id, user, name, slot) == Report(BookingFields(id, user, name, slot))
    ensures BookingText(Booking(id, user, slot), name) == Report(BookingFields(id, user, name, slot)) + "\n"
  {
    hide Report, DayName, StartText, EndText, SlotFields;
    SlotReport([Field("bookingID:", id)], user, name, slot);
    ReportAdd([], Field("bookingID:", id));
    assert [] + [Field("bookingID:", id)] == [Field("bookingID:", id)];
    NoFields();
    assert "status:SUCCESS" + ("\n" + "bookingID:") == "status:SUCCESS\nbookingID:";
  }

  lemma NoFields()
    ensures Report([]) == "status:SUCCESS"
  {
  }

  lemma UpdatedReport(previous: string, id: string, user: string, name: string, slot: TimeSlot)
    ensures UpdatedText(previous, id, user, name, slot)
            == Report([Field("oldBookingID:", previous), Field("newBookingID:", id)] + SlotFields(user, name, slot))
               + "\n"
  {
    hide Report, DayName, StartText, EndText, SlotFields;
    var old_, new_ := Field("oldBookingID:", previous), Field("newBookingID:", id);
    SlotReport([old_, new_], user, name, slot);
    ReportAdd([], old_);
    ReportAdd([old_], new_);
    assert [] + [old_] == [old_] && [old_] + [new_] == [old_, new_];
    NoFields();
    assert "status:SUCCESS" + ("\n" + "oldBookingID:") == "status:SUCCESS\noldBookingID:";
    assert "\n" + "newBookingID:" == "\nnewBookingID:";
  }

  lemma SlotFieldsClean(slot: TimeSlot)
    ensures '\n' !in DayName(slot.day) && '\n' !in StartText(slot) && '\n' !in EndText(slot)
  {
    hide Pad2;
    DayRoundTrip(slot.day);
    TimeLacks(slot.Start(), '\n');
    TimeLacks(slot.End(), '\n');
  }

  /** What the client shows of a booking. */
  function BookingBox(b: Booking, name: string): (r: seq<string>) {
    ["Booking Details", "Booking ID: " + b.confirmationID, "User: " + b.userInfo, "Facility: " + name,
     "Day: " + DayName(b.timeSlot.day), "Start Time: " + StartText(b.timeSlot), "End Time: " + EndText(b.timeSlot)]
  }

  /** What it shows of a booking that replaces another one. */
  function UpdateBox(b: Booking, name: string): (r: seq<string>) {
    ["New Booking Details", "New Booking ID: " + b.confirmationID, "User: " + b.userInfo, "Facility: " + name,
     "New Day: " + DayName(b.timeSlot.day), "New Start Time: " + StartText(b.timeSlot),
     "New End Time: " + EndText(b.timeSlot)]
  }

  /** The texts with which the fields of a booking stay on their lines. */
  predicate Unbroken(b: Booking, name: string) {
    '\n' !in b.confirmationID && '\n' !in b.userInfo && '\n' !in name
  }

  lemma SlotFieldsDistinct(b: Booking, name: string)
    requires Unbroken(b, name)
    ensures Distinct(SlotFields(b.userInfo, name, b.timeSlot))
  {
    hide DayName, StartText, EndText, HeadsDiffer;
    SlotFieldsClean(b.timeSlot);
    SlotHeads(b.userInfo, name, b.timeSlot);
  }

  lemma SlotHeads(user: string, name: string, slot: TimeSlot)
    requires Whole(SlotFields(user, name, slot))
    ensures HeadsDiffer(SlotFields(user, name, slot))
  {
    hide DayName, StartText, EndText, Whole;
    assert forall i :: 0 <= i < 5 ==> SlotFields(user, name, slot)[i].tag != "";
  }

  /** One more field in front, with another first character. */
  lemma DistinctFront(f: Field, fields: seq<Field>)
    requires Distinct(fields) && f.OnOneLine()
    requires forall i :: 0 <= i < |fields| ==> fields[i].tag != "" && fields[i].tag[0] != f.tag[0]
    ensures Distinct([f] + fields)
  {
  }

  lemma BookingFieldsDistinct(b: Booking, name: string)
    requires Unbroken(b, name)
    ensures Distinct(BookingFields(b.confirmationID, b.userInfo, name, b.timeSlot))
  {
    hide DayName, StartText, EndText, Distinct;
    SlotFieldsDistinct(b, name);
    DistinctFront(Field("bookingID:", b.confirmationID), SlotFields(b.userInfo, name, b.timeSlot));
  }

  /** The reply to an accepted booking and the answer about a held one both show it. */
  lemma BookingIsShown(b: Booking, name: string)
    requires Unbroken(b, name)
    ensures BookingShown(BookedText(b.confirmationID, b.userInfo, name, b.timeSlot)) == BookingBox(b, name)
    ensures BookingShown(BookingText(b, name)) == BookingBox(b, name)
  {
    hide Report, DayName, StartText, EndText, Body, LastOf, IsError, Distinct, BookedText, BookingText;
    var fields := BookingFields(b.confirmationID, b.userInfo, name, b.timeSlot);
    BookingFieldsDistinct(b, name);
    BookedReport(b.confirmationID, b.userInfo, name, b.timeSlot);
    assert Report(fields) + "" == Report(fields);
    ReportRead(fields, "");
    ReportRead(fields, "\n");
    assert fields[0].tag == "bookingID:" && fields[1].tag == "user:" && fields[2].tag == "facility:"
        && fields[3].tag == "day:" && fields[4].tag == "startTime:" && fields[5].tag == "endTime:";
  }

  lemma UpdateFieldsDistinct(previous: string, b: Booking, name: string)
    requires Unbroken(b, name) && '\n' !in previous
    ensures Distinct([Field("oldBookingID:", previous), Field("newBookingID:", b.confirmationID)]
                     + SlotFields(b.userInfo, name, b.timeSlot))
  {
    hide DayName, StartText, EndText, Distinct;
    var old_, new_ := Field("oldBookingID:", previous), Field("newBookingID:", b.confirmationID);
    var slots := SlotFields(b.userInfo, name, b.timeSlot);
    SlotFieldsDistinct(b, name);
    DistinctFront(new_, slots);
    DistinctFront(old_, [new_] + slots);
    assert [old_] + ([new_] + slots) == [old_, new_] + slots;
  }

  /** The reply to an accepted update shows the new booking. Its first line carries the ID of
      the old one, which the client reads but does not show. */
  lemma UpdateIsShown(previous: string, b: Booking, name: string)
    requires Unbroken(b, name) && '\n' !in previous
    ensures var t := UpdatedText(previous, b.confirmationID, b.userInfo, name, b.timeSlot);
            && !IsError(t) && UpdateShown(t) == UpdateBox(b, name)
            && LastOf(Body(t), "oldBookingID:") == previous && LastOf(Body(t), "newBookingID:") == b.confirmationID
  {
    hide Report, DayName, StartText, EndText, Body, LastOf, IsError, Distinct, UpdatedText;
    var old_, new_ := Field("oldBookingID:", previous), Field("newBookingID:", b.confirmationID);
    var slots := SlotFields(b.userInfo, name, b.timeSlot);
    var fields := [old_, new_] + slots;
    UpdateFieldsDistinct(previous, b, name);
    UpdatedReport(previous, b.confirmationID, b.userInfo, name, b.timeSlot);
    ReportRead(fields, "\n");
    assert fields[0].tag == "oldBookingID:" && fields[1].tag == "newBookingID:" && fields[2].tag == "user:"
        && fields[3].tag == "facility:" && fields[4].tag == "day:" && fields[5].tag == "startTime:"
        && fields[6].tag == "endTime:";
  }

  /** A report of two fields. */
  lemma TwoRead(a: Field, b: Field)
    requires a.OnOneLine() && b.OnOneLine() && a.tag[0] != b.tag[0]
    ensures var t := "status:SUCCESS" + ("\n" + a.tag) + a.value + ("\n" + b.tag) + b.value;
            !IsError(t) && LastOf(Body(t), a.tag) == a.value && LastOf(Body(t), b.tag) == b.value
  {
    hide Report, IsError, Body, LastOf;
    NoFields();
    ReportAdd([], a);
    ReportAdd([a], b);
    assert [] + [a] == [a] && [a] + [b] == [a, b];
    assert Report([a, b]) + "" == Report([a, b]);
    ReportRead([a, b], "");
    assert [a, b][0] == a && [a, b][1] == b;
  }

  /** A report of three. */
  lemma ThreeRead(a: Field, b: Field, c: Field)
    requires Distinct([a, b, c])
    ensures var t := "status:SUCCESS" + ("\n" + a.tag) + a.value + ("\n" + b.tag) + b.value + ("\n" + c.tag) + c.value;
            !IsError(t) && LastOf(Body(t), a.tag) == a.value && LastOf(Body(t), b.tag) == b.value
            && LastOf(Body(t), c.tag) == c.value
  {
    hide Report, IsError, Body, LastOf, Distinct;
    NoFields();
    ReportAdd([], a);
    ReportAdd([a], b);
    ReportAdd([a, b], c);
    assert [] + [a] == [a] && [a] + [b] == [a, b] && [a, b] + [c] == [a, b, c];
    assert Report([a, b, c]) + "" == Report([a, b, c]);
    ReportRead([a, b, c], "");
    assert [a, b, c][0] == a && [a, b, c][1] == b && [a, b, c][2] == c;
  }

  lemma DeletionIsShown(id: string, user: string)
    requires '\n' !in id && '\n' !in user
    ensures DeleteShown("status:SUCCESS\nbookingID:" + id + "\nuser:" + user)
            == ["Booking Deleted", "Old Booking ID: " + id, "User: " + user]
  {
    hide IsError, Body, LastOf;
    assert "status:SUCCESS" + ("\n" + "bookingID:") == "status:SUCCESS\nbookingID:" && "\n" + "user:" == "\nuser:";
    TwoRead(Field("bookingID:", id), Field("user:", user));
  }

  lemma RegistrationIsShown(name: string, interval: string)
    requires '\n' !in name && '\n' !in interval
    ensures MonitorShown("status:SUCCESS\nfacility:" + name + "\ninterval:" + interval)
            == ["Monitoring Registration", "Facility: " + name, "Duration: " + interval + "s"]
  {
    hide IsError, Body, LastOf;
    assert "status:SUCCESS" + ("\n" + "facility:") == "status:SUCCESS\nfacility:";
    assert "\n" + "interval:" == "\ninterval:";
    TwoRead(Field("facility:", name), Field("interval:", interval));
  }

  lemma RatingIsShown(name: string, rating: string)
    requires '\n' !in name && '\n' !in rating
    ensures RatingShown("status:SUCCESS\nfacility:" + name + "\nrating:" + rating)
            == ["Facility Rating", "Facility: " + name, "Rating: " + rating]
  {
    hide IsError, Body, LastOf;
    assert "status:SUCCESS" + ("\n" + "facility:") == "status:SUCCESS\nfacility:";
    assert "\n" + "rating:" == "\nrating:";
    TwoRead(Field("facility:", name), Field("rating:", rating));
  }

  lemma RateIsShown(user: string, name: string, rating: real)
    requires '\n' !in user && '\n' !in name
    ensures RateShown(RatedText(user, name, rating))
            == ["Rating Added", "User: " + user, "Facility: " + name, "Rating: " + Tenths(rating)]
  {
    hide IsError, Body, LastOf, Tenths;
    assert "status:SUCCESS" + ("\n" + "user:") == "status:SUCCESS\nuser:";
    assert "\n" + "facility:" == "\nfacility:" && "\n" + "rating:" == "\nrating:";
    TenthsClean(rating);
    ThreeRead(Field("user:", user), Field("facility:", name), Field("rating:", Tenths(rating)));
  }

  lemma PrintedOnOneLine(n: int)
    ensures '\n' !in PrintInt(n)
  {
  }

  lemma TenthsClean(r: real)
    ensures '\n' !in Tenths(r)
  {
    hide PrintInt;
    var n := ((if r < 0.0 then -r else r) * 10.0 + 0.5).Floor;
    PrintedOnOneLine(n / 10);
    PrintedOnOneLine(n % 10);
  }

  /** Any error text is shown as its message by every parser. */
  lemma ErrorIsShown(message: string)
    requires '\n' !in message
    ensures var t, shown := ErrorText(message), ["Error", message];
            && BookingShown(t) == shown && UpdateShown(t) == shown && DeleteShown(t) == shown
            && MonitorShown(t) == shown && RateShown(t) == shown && RatingShown(t) == shown && NamesShown(t) == shown
  {
    hide IndexOf, ErrorText, IsError, RestAfter, ErrorMessage, LastOf, Body;
    FirstLine(message);
    MessageShown(message);
    WholeLine(message);
  }

  // ---------- the list of facilities ----------

  function NamesOf(fs: seq<Facility>): (r: seq<string>)
    ensures |r| == |fs| && forall i :: 0 <= i < |fs| ==> r[i] == fs[i].name
  {
    if fs == [] then [] else [fs[0].name] + NamesOf(fs[1..])
  }

  lemma {:induction false} NamesRead(fs: seq<Facility>)
    requires forall f <- fs :: f.name != "" && ',' !in f.name && '\n' !in f.name
    ensures NonEmpty(Pieces(FacilityNames(fs), ',')) == NamesOf(fs) && '\n' !in FacilityNames(fs)
  {
    hide Pieces;
    if fs == [] {
      assert Pieces("", ',') == [] by { NoPiecesAt(','); }
    } else {
      assert fs[0] in fs;
      NamesRead(fs[1..]);
      var name, rest := fs[0].name, FacilityNames(fs[1..]);
      PiecesCons(name, ',', rest);
      assert FacilityNames(fs) == name + [','] + rest;
      assert ([name] + Pieces(rest, ','))[1..] == Pieces(rest, ',');
    }
  }

  lemma NoPiecesAt(c: char)
    ensures Pieces("", c) == []
  {
  }

  /** The client lists the facilities in the server's order. */
  lemma NamesAreShown(fs: seq<Facility>)
    requires forall f <- fs :: f.name != "" && ',' !in f.name && '\n' !in f.name
    ensures NamesShown("status:SUCCESS\nfacilityNames:" + FacilityNames(fs)) == ["Facility Names"] + NamesOf(fs)
  {
    hide FacilityNames, IsError, Body, Report, NonEmpty, NamesOf, NamesIn, Pieces;
    var f := Field("facilityNames:", FacilityNames(fs));
    NamesRead(fs);
    NoFields();
    ReportAdd([], f);
    assert [] + [f] == [f];
    assert "status:SUCCESS" + ("\n" + "facilityNames:") == "status:SUCCESS\nfacilityNames:";
    assert Report([f]) + "" == Report([f]);
    ReportBody([f], "");
    NamesLine(FacilityNames(fs));
    assert LinesOf([f]) == [f.Line()];
  }

  lemma NamesLine(names: string)
    ensures NamesIn(["facilityNames:" + names]) == NonEmpty(Pieces(names, ','))
  {
    hide NonEmpty, Pieces;
    var line: string := "facilityNames:" + names;
    var lines: seq<string> := [line];
    assert line[..14] == "facilityNames:" && line[14..] == names;
    assert lines[1..] == [];
    NamesFirst(lines);
  }

  lemma NamesFirst(lines: seq<string>)
    requires |lines| == 1 && "facilityNames:" <= lines[0]
    ensures NamesIn(lines) == NonEmpty(Pieces(lines[0][14..], ','))
  {
    hide NonEmpty, Pieces;
    assert NamesIn(lines[1..]) == [];
  }
}
