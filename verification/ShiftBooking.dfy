/** Moving a booking from end to end: the server prints it, the client reads the text, adds
    an offset in minutes, splits, prints, and the server parses and stores. */
module ShiftBooking {
  import opened Basics
  import opened TimeSlots
  import opened Bookings
  import opened Text
  import opened Searching
  import opened ClientText
  import opened ServerModel
  import opened Identifiers
  import opened Repetition

  // ---------- the client reads what the server printed ----------

  predicate Free(s: string, prefixes: seq<string>) {
    forall i :: 0 <= i < |prefixes| ==> !Contains(s, prefixes[i])
  }

  /** Texts that put no field name in front of the field the client looks for, and no comma or
      end of line where the formats have no room for one. */
  predicate Tellable(id: string, user: string, name: string) {
    && Free(id, ["facility:", "day:", "startTime:", "endTime:"]) && ',' !in id && '\n' !in id && id != ""
    && Free(user, ["facility:", "day:", "startTime:", "endTime:"])
    && Free(name, ["day:", "startTime:", "endTime:"]) && ',' !in name && '\n' !in name
  }

  /** The pattern cannot begin inside the label. */
  predicate Transparent(tag: string, p: string) {
    |p| >= 2 && forall i :: 0 <= i < |tag| ==> tag[i] != p[0] || (i + 1 < |tag| && tag[i + 1] != p[1])
  }

  lemma AddLine(head: string, tag: string, v: string, p: string)
    requires Transparent(tag, p) && '\n' !in p
    ensures Contains(head + ['\n'] + (tag + v), p) <==> Contains(head, p) || Contains(v, p)
  {
    hide Contains;
    forall i: nat | i < |tag| ensures !MatchesAt(tag + v, p, i) {
      NoMatch(tag + v, p, i, if tag[i] != p[0] then 0 else 1);
    }
    ContainsBehind(tag, v, p);
    ContainsAcross(head, '\n', tag + v, p);
  }

  function IdLine(b: Booking): string { "status:SUCCESS" + ['\n'] + ("bookingID:" + b.confirmationID) }

  function UserLine(b: Booking): string { IdLine(b) + ['\n'] + ("user:" + b.userInfo) }

  function FacilityLine(b: Booking, name: string): string { UserLine(b) + ['\n'] + ("facility:" + name) }

  function DayLine(b: Booking, name: string): string {
    FacilityLine(b, name) + ['\n'] + ("day:" + DayName(b.timeSlot.day))
  }

  function StartLine(b: Booking, name: string): string {
    DayLine(b, name) + ['\n'] + ("startTime:" + StartText(b.timeSlot))
  }

  lemma StatusFree(p: string)
    requires p in ["facility:", "day:", "startTime:", "endTime:"]
    ensures !Contains("status:SUCCESS", p)
  {
    var k := if p == "startTime:" then 3 else 0;
    assert Lacks("status:SUCCESS", p[k]);
    LacksPattern("status:SUCCESS", p);
  }

  lemma UserLineFree(b: Booking, name: string, p: string)
    requires Tellable(b.confirmationID, b.userInfo, name) && p in ["facility:", "day:", "startTime:", "endTime:"]
    ensures !Contains(UserLine(b), p)
  {
    hide Contains;
    StatusFree(p);
    FreeOf(b.confirmationID, ["facility:", "day:", "startTime:", "endTime:"], p);
    FreeOf(b.userInfo, ["facility:", "day:", "startTime:", "endTime:"], p);
    LabelsTransparent(p);
    AddLine("status:SUCCESS", "bookingID:", b.confirmationID, p);
    AddLine(IdLine(b), "user:", b.userInfo, p);
  }

  lemma FreeOf(s: string, prefixes: seq<string>, p: string)
    requires Free(s, prefixes) && p in prefixes
    ensures !Contains(s, p)
  {
  }

  lemma LabelsTransparent(p: string)
    requires p in ["facility:", "day:", "startTime:", "endTime:"]
    ensures Transparent("bookingID:", p) && Transparent("user:", p) && '\n' !in p
    ensures p != "facility:" ==> Transparent("facility:", p)
    ensures p in ["startTime:", "endTime:"] ==> Transparent("day:", p)
    ensures p == "endTime:" ==> Transparent("startTime:", p)
  {
  }

  lemma DayFree(day: Day, p: string)
    requires p in ["startTime:", "endTime:"]
    ensures !Contains(DayName(day), p)
  {
    hide Contains, DayName;
    DayRoundTrip(day);
    assert Lacks(DayName(day), p[0]) by {
      assert forall i :: 0 <= i < |DayName(day)| ==> DayName(day)[i] in DayName(day);
    }
    LacksPattern(DayName(day), p);
  }

  lemma PadLacks(n: int, c: char)
    requires c !in "-0123456789"
    ensures Lacks(Pad2(n), c)
  {
    hide PrintNat;
    assert Lacks("0", c) && Lacks("-", c);
  }

  lemma TimeLacks(t: Time, c: char)
    requires c !in "-0123456789"
    ensures Lacks(Pad2(t.hour) + Pad2(t.minute), c)
  {
    hide Pad2;
    PadLacks(t.hour, c);
    PadLacks(t.minute, c);
  }

  lemma LinesFree(b: Booking, name: string)
    requires Tellable(b.confirmationID, b.userInfo, name)
    ensures !Contains(UserLine(b), "facility:") && !Contains(FacilityLine(b, name), "day:")
    ensures !Contains(DayLine(b, name), "startTime:") && !Contains(StartLine(b, name), "endTime:")
  {
    hide Contains, UserLine, DayName, StartText, Transparent;
    forall p | p in ["facility:", "day:", "startTime:", "endTime:"] ensures !Contains(UserLine(b), p) {
      UserLineFree(b, name, p);
    }
    forall p | p in ["day:", "startTime:", "endTime:"] ensures !Contains(FacilityLine(b, name), p) {
      FreeOf(name, ["day:", "startTime:", "endTime:"], p);
      LabelsTransparent(p);
      AddLine(UserLine(b), "facility:", name, p);
    }
    forall p | p in ["startTime:", "endTime:"] ensures !Contains(DayLine(b, name), p) {
      DayFree(b.timeSlot.day, p);
      LabelsTransparent(p);
      AddLine(FacilityLine(b, name), "day:", DayName(b.timeSlot.day), p);
    }
    LabelsTransparent("endTime:");
    StartFree(b.timeSlot);
    AddLine(DayLine(b, name), "startTime:", StartText(b.timeSlot), "endTime:");
  }

  lemma StartFree(slot: TimeSlot)
    ensures !Contains(StartText(slot), "endTime:")
  {
    hide Pad2;
    TimeLacks(slot.Start(), 'e');
    assert Lacks(StartText(slot), "endTime:"[0]);
    LacksPattern(StartText(slot), "endTime:");
  }

  lemma Glue(a: string, tag: string, v: string)
    ensures a + ['\n'] + (tag + v) == a + (['\n'] + tag) + v
  {
  }

  lemma Regroup(a: string, line: string, rest: string)
    ensures a + ['\n'] + line + ['\n'] + rest == a + ['\n'] + (line + ['\n'] + rest)
  {
  }

  lemma FiveLines(b: Booking, name: string)
    ensures "status:SUCCESS\nbookingID:" + b.confirmationID + "\nuser:" + b.userInfo + "\nfacility:" + name
            + "\nday:" + DayName(b.timeSlot.day) + "\nstartTime:" + StartText(b.timeSlot) == StartLine(b, name)
  {
    hide DayName, StartText;
    Glue("status:SUCCESS", "bookingID:", b.confirmationID);
    assert "status:SUCCESS" + (['\n'] + "bookingID:") == "status:SUCCESS\nbookingID:";
    Glue(IdLine(b), "user:", b.userInfo);
    assert ['\n'] + "user:" == "\nuser:";
    Glue(UserLine(b), "facility:", name);
    assert ['\n'] + "facility:" == "\nfacility:";
    Glue(FacilityLine(b, name), "day:", DayName(b.timeSlot.day));
    assert ['\n'] + "day:" == "\nday:";
    Glue(DayLine(b, name), "startTime:", StartText(b.timeSlot));
    assert ['\n'] + "startTime:" == "\nstartTime:";
  }

  lemma LastLine(b: Booking, name: string)
    ensures BookingText(b, name) == StartLine(b, name) + ['\n'] + ("endTime:" + EndText(b.timeSlot) + ['\n'] + "")
  {
    hide DayName, StartText, EndText, StartLine;
    FiveLines(b, name);
    Glue(StartLine(b, name), "endTime:", EndText(b.timeSlot));
    assert ['\n'] + "endTime:" == "\nendTime:";
    assert ['\n'] + "" == "\n";
    Regroup(StartLine(b, name), "endTime:" + EndText(b.timeSlot), "");
  }

  /** The text about a booking, split where the client's searches end up. */
  lemma TextSplits(b: Booking, name: string)
    ensures var t, slot := BookingText(b, name), b.timeSlot;
            var ends := "endTime:" + EndText(slot) + ['\n'] + "";
            var starts := "startTime:" + StartText(slot) + ['\n'] + ends;
            var days := "day:" + DayName(slot.day) + ['\n'] + starts;
            && t == StartLine(b, name) + ['\n'] + ends
            && t == DayLine(b, name) + ['\n'] + starts
            && t == FacilityLine(b, name) + ['\n'] + days
            && t == UserLine(b) + ['\n'] + ("facility:" + name + ['\n'] + days)
  {
    hide BookingText, DayName, StartText, EndText, UserLine;
    var slot := b.timeSlot;
    var ends := "endTime:" + EndText(slot) + ['\n'] + "";
    var starts := "startTime:" + StartText(slot) + ['\n'] + ends;
    LastLine(b, name);
    Regroup(DayLine(b, name), "startTime:" + StartText(slot), ends);
    Regroup(FacilityLine(b, name), "day:" + DayName(slot.day), starts);
    Regroup(UserLine(b), "facility:" + name, "day:" + DayName(slot.day) + ['\n'] + starts);
  }

  /** The client's four searches find exactly the four fields. */
  lemma ClientReads(b: Booking, name: string)
    requires Tellable(b.confirmationID, b.userInfo, name)
    ensures var t := BookingText(b, name);
            && Extract(t, "facility:") == name
            && Extract(t, "day:") == DayName(b.timeSlot.day)
            && Extract(t, "startTime:") == StartText(b.timeSlot)
            && Extract(t, "endTime:") == EndText(b.timeSlot)
  {
    hide Contains, Extract, UserLine, FacilityLine, DayLine, StartLine, DayName, BookingText, Pad2;
    var slot := b.timeSlot;
    var ends := "endTime:" + EndText(slot) + ['\n'] + "";
    var starts := "startTime:" + StartText(slot) + ['\n'] + ends;
    var days := "day:" + DayName(slot.day) + ['\n'] + starts;
    LinesFree(b, name);
    TextSplits(b, name);
    TimeLacks(slot.Start(), '\n');
    TimeLacks(slot.End(), '\n');
    DayRoundTrip(slot.day);
    ExtractFinds(StartLine(b, name), "endTime:", EndText(slot), "");
    ExtractFinds(DayLine(b, name), "startTime:", StartText(slot), ends);
    ExtractFinds(FacilityLine(b, name), "day:", DayName(slot.day), starts);
    ExtractFinds(UserLine(b), "facility:", name, days);
  }

  predicate TwoPlaces(t: Time) { -9 <= t.hour <= 99 && -9 <= t.minute <= 99 }

  /** Slots whose printed times the client reads back. */
  predicate Readable(slot: TimeSlot) { TwoPlaces(slot.Start()) && TwoPlaces(slot.End()) }

  /** The client reads back the start and end the server stored exactly when each number
      takes two characters. */
  lemma ReadsSlotIff(b: Booking, name: string)
    requires Tellable(b.confirmationID, b.userInfo, name)
    ensures var t := BookingText(b, name);
            ReadTime(Extract(t, "startTime:")) == Some(b.timeSlot.Start())
            && ReadTime(Extract(t, "endTime:")) == Some(b.timeSlot.End())
            <==> Readable(b.timeSlot)
  {
    hide Extract, BookingText, ReadTime, Tellable, Pad2, DayName;
    ClientReads(b, name);
    ReadBackIff(b.timeSlot.Start());
    ReadBackIff(b.timeSlot.End());
  }

  /** Whole days up to 99 hours 59 minutes, split as the client splits them, are readable. */
  lemma SplitReadable(from: int, to: int, day: Day)
    requires 0 <= from <= 5999 && 0 <= to <= 5999
    ensures Readable(SplitSlot(from, to, day))
  {
  }

  /** One hundred hours are not: the client sees ten. */
  lemma LateHoursMisread()
    ensures ReadTime(Pad2(100) + Pad2(0)) == Some(Time(10, 0))
  {
    PrintHundred();
    assert Pad2(100) + Pad2(0) == "10000";
    assert "10000"[0..2] == "10" && "10000"[2..4] == "00";
    StoiPad2(10);
    assert Pad2(10) == "10" by {
      assert PrintNat(1) == "1" && PrintNat(10) == PrintNat(1) + "0";
    }
    StoiPad2(0);
    assert Stoi("00") == Some(0) by {
      assert Pad2(0) == "0" + PrintNat(0) && PrintNat(0) == "0";
      assert Pad2(0) == "00";
    }
  }

  lemma PrintHundred()
    ensures PrintNat(100) == "100" && Pad2(100) == "100" && Pad2(0) == "00"
  {
    assert PrintNat(1) == "1";
    assert PrintNat(10) == PrintNat(1) + "0";
    assert PrintNat(100) == PrintNat(10) + "0";
    assert PrintNat(0) == "0";
  }

  // ---------- the server parses what the client composed ----------

  predicate Printable(t: Time) { InInt32(t.hour) && InInt32(t.minute) }

  lemma PrintedClean(n: int)
    ensures ',' !in PrintInt(n)
  {
  }

  /** Splitting the client's text gives its fields, and the update parser accepts them. */
  lemma ServerParses(id: string, name: string, day: Day, start: Time, end: Time, env: Env)
    requires ',' !in id && ',' !in name && Printable(start) && Printable(end)
    ensures var t := Join(MoveFields(id, name, DayName(day), start, end), ',');
            && JavaSplit(t) == MoveFields(id, name, DayName(day), start, end)
            && ParseUpdate(t, env)
               == GoodUpdate(BookingDetails(id, name, TimeSlot(start.hour, start.minute, end.hour, end.minute, day)))
  {
    hide PrintInt, ParseInt, DayName, JavaSplit, ParseDay, Upper;
    var fields := MoveFields(id, name, DayName(day), start, end);
    var t := Join(fields, ',');
    DayRoundTrip(day);
    PrintedClean(start.hour);
    PrintedClean(start.minute);
    PrintedClean(end.hour);
    PrintedClean(end.minute);
    JavaSplitJoin(fields);
    ParsePrint(start.hour);
    ParsePrint(start.minute);
    ParsePrint(end.hour);
    ParsePrint(end.minute);
    assert t == "booking" + [','] + Join(fields[1..], ',');
    assert t[0] == 'b';
  }

  /** Two characters that stand for a number in C++ stand for the same one in Java. */
  lemma ParsePad(n: int)
    requires -9 <= n <= 99
    ensures ParseInt(Pad2(n)) == Some(n) && ',' !in Pad2(n) && |Pad2(n)| == 2
  {
    PadTwo(n);
    if 0 <= n < 10 {
      assert Pad2(n) == ['0', Digit(n)];
      assert Pad2(n)[..1] == "0" && "0"[..0] == "";
      assert NatOf("0") == 0;
    } else {
      ParsePrint(n);
    }
  }

  /** Whatever the server prints as part of a time, Java reads back as the number, and it takes
      at least two characters. */
  lemma PadReads(n: int)
    requires InInt32(n)
    ensures ParseInt(Pad2(n)) == Some(n) && |Pad2(n)| >= 2
  {
    if -9 <= n <= 99 {
      ParsePad(n);
    } else {
      ParsePrint(n);
      AtLeastTwo(n);
    }
  }

  lemma AtLeastTwo(n: int)
    requires n < 0 || n >= 10
    ensures |PrintInt(n)| >= 2
  {
  }

  /** A booking request typed in as four-digit times means the slot that was typed. */
  lemma BookedAsTyped(name: string, slot: TimeSlot)
    requires ',' !in name && Readable(slot)
    ensures var data := BookData(name, DayName(slot.day), StartText(slot), EndText(slot));
            data.Some? && ParseBooking(data.value) == Some(BookingDetails("", name, slot))
  {
    hide Pad2, ParseInt, DayName, JavaSplit, ParseDay;
    var h0, m0, h1, m1 := Pad2(slot.startHour), Pad2(slot.startMinute), Pad2(slot.endHour), Pad2(slot.endMinute);
    ParsePad(slot.startHour);
    ParsePad(slot.startMinute);
    ParsePad(slot.endHour);
    ParsePad(slot.endMinute);
    DayRoundTrip(slot.day);
    assert (h0 + m0)[0..2] == h0 && (h0 + m0)[2..4] == m0;
    assert (h1 + m1)[0..2] == h1 && (h1 + m1)[2..4] == m1;
    JavaSplitJoin([name, DayName(slot.day), h0, m0, h1, m1]);
  }

  // ---------- finding a booking by its ID ----------

  ghost predicate Holding(fs: seq<Facility>, i: nat, b: Booking) {
    i < |fs| && b in Everything(fs[i].calendar.booked)
  }

  lemma HoldingPlace(fs: seq<Facility>, i: nat, b: Booking) returns (p: Place)
    requires Holding(fs, i, b)
    ensures Occupied(fs, p) && p.i == i && fs[i].calendar.booked[p.d][p.k] == b
  {
    EverythingHolds(fs[i].calendar.booked, b);
    var d :| 0 <= d < |fs[i].calendar.booked| && b in fs[i].calendar.booked[d];
    var k :| 0 <= k < |fs[i].calendar.booked[d]| && fs[i].calendar.booked[d][k] == b;
    p := Place(i, d, k);
  }

  lemma {:induction false} LookupIs(bs: seq<Booking>, id: string, b: Booking)
    requires forall k :: 0 <= k < |bs| && bs[k].confirmationID == id ==> bs[k] == b
    ensures Lookup(bs, id) == if exists k :: 0 <= k < |bs| && bs[k].confirmationID == id then Some(b) else None
  {
    if bs != [] {
      assert forall k :: 0 <= k < |bs| - 1 ==> bs[1..][k] == bs[k + 1];
      LookupIs(bs[1..], id, b);
      if bs[0].confirmationID != id && exists k :: 0 <= k < |bs| && bs[k].confirmationID == id {
        var k :| 0 <= k < |bs| && bs[k].confirmationID == id;
        assert bs[1..][k - 1].confirmationID == id;
      }
    }
  }

  lemma {:induction false} LookupFromIs(days: seq<seq<Booking>>, id: string, b: Booking)
    requires forall d, k :: 0 <= d < |days| && 0 <= k < |days[d]| && days[d][k].confirmationID == id ==> days[d][k] == b
    ensures LookupFrom(days, id)
            == if exists d, k :: 0 <= d < |days| && 0 <= k < |days[d]| && days[d][k].confirmationID == id
               then Some(b) else None
  {
    if days != [] {
      LookupIs(days[0], id, b);
      assert forall d :: 0 <= d < |days| - 1 ==> days[1..][d] == days[d + 1];
      LookupFromIs(days[1..], id, b);
      if exists d, k :: 0 < d < |days| && 0 <= k < |days[d]| && days[d][k].confirmationID == id {
        var d, k :| 0 < d < |days| && 0 <= k < |days[d]| && days[d][k].confirmationID == id;
        assert days[1..][d - 1][k].confirmationID == id;
      }
    }
  }

  lemma {:induction false} AnswerSkips(fs: seq<Facility>, i: nat, b: Booking)
    requires i < |fs| && BookingInfo(fs[i].calendar, b.confirmationID) == Some(b)
    requires forall j :: 0 <= j < i ==> BookingInfo(fs[j].calendar, b.confirmationID) == None
    ensures BookingAnswer(fs, b.confirmationID) == BookingText(b, fs[i].name)
  {
    hide BookingText, BookingInfo;
    if i > 0 {
      AnswerSkips(fs[1..], i - 1, b);
    }
  }

  /** With unique IDs, asking for a booking by its ID gives that booking. */
  lemma AnswerFinds(fs: seq<Facility>, i: nat, b: Booking)
    requires UniqueIDs(fs) && Holding(fs, i, b)
    ensures BookingAnswer(fs, b.confirmationID) == BookingText(b, fs[i].name)
  {
    hide BookingText, BookingAnswer, Everything;
    var p := HoldingPlace(fs, i, b);
    assert IDAt(fs, p) == b.confirmationID;
    forall j | 0 <= j <= i
      ensures BookingInfo(fs[j].calendar, b.confirmationID) == if j == i then Some(b) else None
    {
      forall d, k | 0 <= d < |fs[j].calendar.booked| && 0 <= k < |fs[j].calendar.booked[d]|
                    && fs[j].calendar.booked[d][k].confirmationID == b.confirmationID
        ensures j == i && fs[j].calendar.booked[d][k] == b
      {
        assert Occupied(fs, Place(j, d, k)) && IDAt(fs, Place(j, d, k)) == IDAt(fs, p);
      }
      LookupFromIs(fs[j].calendar.booked, b.confirmationID, b);
    }
    AnswerSkips(fs, i, b);
  }

  /** With unique IDs, a removal by the owner takes exactly this booking. */
  lemma RemovesHeld(fs: seq<Facility>, i: nat, b: Booking)
    requires UniqueIDs(fs) && Holding(fs, i, b)
    ensures Has(fs[i].calendar, b.confirmationID, b.userInfo)
    ensures Target(fs[i].calendar, b.confirmationID, b.userInfo) == b
  {
    var c := fs[i].calendar;
    HasIff(c, b.confirmationID, b.userInfo);
    assert Owned(b, b.confirmationID, b.userInfo);
    var p := HoldingPlace(fs, i, b);
    var d := FindDay(c.booked, b.confirmationID, b.userInfo, 0);
    var q := Place(i, d, Find(c.booked[d], b.confirmationID, b.userInfo));
    assert Occupied(fs, q) && IDAt(fs, q) == IDAt(fs, p);
  }
}
