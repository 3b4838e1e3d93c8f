/** What a monitoring client shows when a notification arrives. */
module NoticeScreens {
  import opened Basics
  import opened TimeSlots
  import opened Bookings
  import opened Primitives
  import opened Text
  import opened ServerModel
  import opened Monitors
  import opened ResponseParser
  import opened AvailabilityDisplay
  import opened ReplyTexts
  import opened Network

  /** The text a client's socket delivers of a raw datagram. */
  function Delivered(text: string): (s: string) { DecodeText(Cut(EncodeText(text))) }

  /** It is the whole text iff that fits the client's buffer of 1024 bytes. */
  lemma DeliveredIff(text: string)
    requires ByteString(text)
    ensures Delivered(text) == text <==> |text| <= 1024
  {
    TextRoundTrip(text);
  }

  /** The first line of a notification is no status line, and all the others are those of the
      answer to a query, so the client shows what a query at that moment would show. */
  lemma NoticeShown(core: Core, name: string)
    requires core.Shaped() && Known(core.facilities, name) && '\n' !in name
    ensures Parsed(NoticeText(AvailabilityText(core, name, {})), "") == Parsed(AvailabilityText(core, name, {}), "")
  {
    hide DaysText, TakeLines, DayEntries, IsError, RestAfter, Pieces;
    var days := DaysText(core.facilities[FacilityIndex(core.facilities, name)].calendar, WEEK, {});
    var first, rest := "status:SUCCESS", "facility:" + name + ['\n'] + ("availableTimeslots:" + ['\n'] + days);
    HeaderShape(name, days);
    BodyBehind(first, rest);
    Prefixed(first, rest);
    BodyBehind("RequestMessage: 0 0 " + first, rest);
    assert first[7] != "status:ERROR"[7];
    assert ("RequestMessage: 0 0 " + first)[0] != "status:ERROR"[0];
  }

  lemma Prefixed(first: string, rest: string)
    requires '\n' !in first
    ensures NoticeText(first + ['\n'] + rest) == "RequestMessage: 0 0 " + first + ['\n'] + rest
    ensures '\n' !in "RequestMessage: 0 0 " + first
  {
    var head: string := "RequestMessage: 0 0 ";
    assert head + (first + ['\n'] + rest) == head + first + ['\n'] + rest;
    assert forall i :: 0 <= i < |head| ==> head[i] != '\n';
  }

  // ---------- the whole way ----------

  lemma SlotBytes(slot: TimeSlot)
    ensures ByteString(SlotText(slot))
  {
    hide ByteString, Pad2;
    PadBytes(slot.startHour);
    PadBytes(slot.startMinute);
    PadBytes(slot.endHour);
    PadBytes(slot.endMinute);
    FixedBytes();
    JoinBytes(Pad2(slot.startHour), Pad2(slot.startMinute));
    JoinBytes(Pad2(slot.endHour), Pad2(slot.endMinute));
    JoinBytes(StartText(slot), " - ");
    JoinBytes(StartText(slot) + " - ", EndText(slot));
  }

  lemma PadBytes(n: int)
    ensures ByteString(Pad2(n))
  {
    hide PrintNat;
    assert ByteString("0") && ByteString("-");
  }

  lemma {:induction false} SlotsBytes(slots: seq<TimeSlot>)
    ensures ByteString(SlotsText(slots))
  {
    hide SlotText;
    if slots != [] {
      SlotBytes(slots[0]);
      SlotsBytes(slots[1..]);
    }
  }

  lemma {:induction false} DaysBytes(c: Calendar, days: seq<Day>)
    requires c.Shaped()
    ensures ByteString(DaysText(c, days, {}))
  {
    hide FreeSlots, SlotsText;
    if days != [] {
      SlotsBytes(FreeSlots(c, days[0]));
      DayRoundTrip(days[0]);
      assert forall i :: 0 <= i < |DayName(days[0])| ==> DayName(days[0])[i] in DayName(days[0]);
      DaysBytes(c, days[1..]);
    }
  }

  lemma JoinBytes(a: string, b: string)
    requires ByteString(a) && ByteString(b)
    ensures ByteString(a + b)
  {
  }

  lemma NoticeBytes(core: Core, name: string)
    requires core.Shaped() && Known(core.facilities, name) && ByteString(name)
    ensures ByteString(NoticeText(AvailabilityText(core, name, {})))
  {
    hide DaysText, ByteString;
    var days := DaysText(core.facilities[FacilityIndex(core.facilities, name)].calendar, WEEK, {});
    DaysBytes(core.facilities[FacilityIndex(core.facilities, name)].calendar, WEEK);
    FixedBytes();
    JoinBytes("status:SUCCESS\nfacility:", name);
    JoinBytes("status:SUCCESS\nfacility:" + name, "\navailableTimeslots:\n");
    JoinBytes("status:SUCCESS\nfacility:" + name + "\navailableTimeslots:\n", days);
    JoinBytes("RequestMessage: 0 0 ", AvailabilityText(core, name, {}));
  }

  lemma FixedBytes()
    ensures ByteString("status:SUCCESS\nfacility:") && ByteString("\navailableTimeslots:\n")
    ensures ByteString("RequestMessage: 0 0 ") && ByteString(" - ")
  {
  }

  /** A monitoring client that gets a notification of up to 1024 bytes shows exactly what is
      free in the facility after the change, iff no start is printed with a minus sign. */
  lemma NoticeScreen(core: Core, name: string)
    requires core.Shaped() && Known(core.facilities, name) && '\n' !in name && ByteString(name)
    requires |AvailabilityText(core, name, {})| <= 1004
    ensures var c := core.facilities[FacilityIndex(core.facilities, name)].calendar;
            Parsed(Delivered("RequestMessage: 0 0 " + AvailabilityText(core, name, {})), "")
            == ["Facility Availability", "Facility: " + name] + Entries(c, WEEK, [], Show)
            <==> PlainDays(c, [])
  {
    hide Parsed, AvailabilityText, Entries, PlainDays, Join, NoticeText, Delivered, DayNames, Asked;
    var text := AvailabilityText(core, name, {});
    NoticePrefix(text);
    NoticeBytes(core, name);
    NoticeCarries(text);
    DeliveredIff(NoticeText(text));
    NoticeShown(core, name);
    DisplayExact(core, name, []);
    NothingAsked();
  }

  lemma NoticePrefix(text: string)
    ensures NoticeText(text) == "RequestMessage: 0 0 " + text
  {
  }

  lemma NothingAsked()
    ensures Asked([]) == {} && Join(DayNames([]), ',') == ""
  {
  }
}
