/** One facility's opening hours and bookings, updated in place. */
module Availabilities {
  import opened Basics
  import opened TimeSlots
  import opened Bookings

  class Availability {
    const days: array<bool>
    const startHour: array<int>
    const startMinute: array<int>
    const endHour: array<int>
    const endMinute: array<int>
    const bookedSlots: array<seq<Booking>>

    ghost predicate Valid() {
      && days.Length == startHour.Length == startMinute.Length == endHour.Length == endMinute.Length == 7
      && bookedSlots.Length == 7
      && startHour != startMinute && startHour != endHour && startHour != endMinute
      && startMinute != endHour && startMinute != endMinute && endHour != endMinute
    }

    /** The objects that make up the state. */
    ghost function Repr(): set<object> { {days, startHour, startMinute, endHour, endMinute, bookedSlots} }

    /** The state as a value. */
    ghost function View(): (c: Calendar)
      reads Repr()
      requires Valid()
      ensures c.Shaped()
    {
      Calendar(days[..],
               seq(7, i requires 0 <= i < 7 reads Repr()
                        requires Valid() => Time(startHour[i], startMinute[i])),
               seq(7, i requires 0 <= i < 7 reads Repr()
                        requires Valid() => Time(endHour[i], endMinute[i])),
               bookedSlots[..])
    }

    constructor ()
      ensures Valid()
      ensures View() == Calendar(seq(7, i => false), seq(7, i => Time(0, 0)), seq(7, i => Time(0, 0)), seq(7, i => []))
      ensures fresh(Repr())
    {
      days := new bool[7](i => false);
      startHour := new int[7](i => 0);
      startMinute := new int[7](i => 0);
      endHour := new int[7](i => 0);
      endMinute := new int[7](i => 0);
      bookedSlots := new seq<Booking>[7](i => []);
    }

    method SetAvaOfDay(day: Day, open: bool, startHour: int, startMinute: int, endHour: int, endMinute: int)
      requires Valid()
      modifies this.days, this.startHour, this.startMinute, this.endHour, this.endMinute
      ensures Valid()
      ensures View() == old(View()).(days := old(View()).days[Index(day) := open],
                                     opens := old(View()).opens[Index(day) := Time(startHour, startMinute)],
                                     closes := old(View()).closes[Index(day) := Time(endHour, endMinute)])
    {
      var i := Index(day);
      this.days[i] := open;
      this.startHour[i] := startHour;
      this.startMinute[i] := startMinute;
      this.endHour[i] := endHour;
      this.endMinute[i] := endMinute;
    }

    method IsAvailable(timeSlot: TimeSlot) returns (free: bool)
      requires Valid()
      ensures free <==> Bookings.IsAvailable(View(), timeSlot)
    {
      var dayIndex := Index(timeSlot.day);
      if !days[dayIndex] {
        return false;
      }
      var slots := bookedSlots[dayIndex];
      for i := 0 to |slots|
        invariant NoneConflicts(slots[..i], timeSlot)
      {
        if slots[i].timeSlot.ConflictsWith(timeSlot) {
          return false;
        }
      }
      assert slots[..|slots|] == slots;
      return true;
    }

    /** The confirmation ID is a fresh identifier supplied by the platform. */
    method BookTimeSlot(userInfo: string, timeSlot: TimeSlot, randomUUID: string) returns (confirmationID: string)
      requires Valid()
      modifies bookedSlots
      ensures Valid() && confirmationID == randomUUID
      ensures View() == Book(old(View()), randomUUID, userInfo, timeSlot)
    {
      var dayIndex := Index(timeSlot.day);
      confirmationID := randomUUID;
      bookedSlots[dayIndex] := bookedSlots[dayIndex] + [Booking(confirmationID, userInfo, timeSlot)];
    }

    method RemoveTimeSlot(prev_bookingId: string, userInfo: string) returns (removed: Option<string>)
      requires Valid()
      modifies bookedSlots
      ensures Valid()
      ensures View() == Remove(old(View()), prev_bookingId, userInfo)
      ensures removed == if Has(old(View()), prev_bookingId, userInfo) then Some(prev_bookingId) else None
    {
      ghost var all := bookedSlots[..];
      for dayIndex := 0 to bookedSlots.Length
        invariant bookedSlots[..] == all
        invariant FindDay(all, prev_bookingId, userInfo, 0) == FindDay(all, prev_bookingId, userInfo, dayIndex)
      {
        ghost var list := all[dayIndex];
        var slotIndex := 0;
        while slotIndex < |bookedSlots[dayIndex]|
          invariant 0 <= slotIndex <= |list| && bookedSlots[..] == all
          invariant forall j :: 0 <= j < slotIndex ==> !Owned(list[j], prev_bookingId, userInfo)
        {
          var slot := bookedSlots[dayIndex][slotIndex];
          if slot.confirmationID == prev_bookingId && slot.userInfo == userInfo {
            FirstMatch(list, prev_bookingId, userInfo, slotIndex);
            bookedSlots[dayIndex] := Without(bookedSlots[dayIndex], slotIndex);
            return Some(slot.confirmationID);
          }
          slotIndex := slotIndex + 1;
        }
      }
      return None;
    }

    method GetBookingInfo(confirmationID: string) returns (info: Option<Booking>)
      requires Valid()
      ensures info == BookingInfo(View(), confirmationID)
    {
      ghost var all := bookedSlots[..];
      assert all[0..] == all;
      for i := 0 to 7
        invariant LookupFrom(all, confirmationID) == LookupFrom(all[i..], confirmationID)
      {
        var slots := bookedSlots[i];
        assert all[i..][0] == slots && all[i..][1..] == all[i + 1..];
        assert slots[0..] == slots;
        for j := 0 to |slots|
          invariant Lookup(slots, confirmationID) == Lookup(slots[j..], confirmationID)
        {
          assert slots[j..][1..] == slots[j + 1..];
          if slots[j].confirmationID == confirmationID {
            return Some(slots[j]);
          }
        }
      }
      return None;
    }

    method GetAvailableTimeSlots(day: Day) returns (availableSlots: seq<TimeSlot>)
      requires Valid()
      ensures availableSlots == FreeSlots(View(), day)
    {
      hide Sweep, SortByStart;
      var dayIndex := Index(day);
      availableSlots := [];
      if !days[dayIndex] {
        return;
      }
      var sortedBookings := SortByStart(bookedSlots[dayIndex]);
      var currentStartHour, currentStartMinute := startHour[dayIndex], startMinute[dayIndex];
      ghost var closing := Time(endHour[dayIndex], endMinute[dayIndex]);
      ghost var free := Sweep(sortedBookings, Time(currentStartHour, currentStartMinute), closing, day);
      assert free == FreeSlots(View(), day);
      assert sortedBookings[0..] == sortedBookings;
      for i := 0 to |sortedBookings|
        invariant free
               == availableSlots + Sweep(sortedBookings[i..], Time(currentStartHour, currentStartMinute), closing, day)
      {
        SweepStep(sortedBookings, i, Time(currentStartHour, currentStartMinute), closing, day, availableSlots);
        var bookedSlot := sortedBookings[i].timeSlot;
        if currentStartHour < bookedSlot.startHour
           || (currentStartHour == bookedSlot.startHour && currentStartMinute < bookedSlot.startMinute) {
          availableSlots := availableSlots + [TimeSlot(currentStartHour, currentStartMinute,
                                                       bookedSlot.startHour, bookedSlot.startMinute, day)];
        }
        currentStartHour := bookedSlot.endHour;
        currentStartMinute := bookedSlot.endMinute;
      }
      SweepEnd(sortedBookings, Time(currentStartHour, currentStartMinute), closing, day);
      if currentStartHour < endHour[dayIndex]
         || (currentStartHour == endHour[dayIndex] && currentStartMinute < endMinute[dayIndex]) {
        availableSlots := availableSlots + [TimeSlot(currentStartHour, currentStartMinute,
                                                     endHour[dayIndex], endMinute[dayIndex], day)];
      }
    }
  }

  lemma SweepStep(bs: seq<Booking>, i: nat, cursor: Time, closing: Time, day: Day, before: seq<TimeSlot>)
    requires i < |bs|
    ensures before + Sweep(bs[i..], cursor, closing, day)
            == (if Before(cursor, bs[i].timeSlot.Start()) then before + [Gap(cursor, bs[i].timeSlot.Start(), day)]
                else before)
               + Sweep(bs[i + 1..], bs[i].timeSlot.End(), closing, day)
  {
    assert bs[i..][1..] == bs[i + 1..];
  }

  lemma SweepEnd(bs: seq<Booking>, cursor: Time, closing: Time, day: Day)
    ensures Sweep(bs[|bs|..], cursor, closing, day)
            == if Before(cursor, closing) then [Gap(cursor, closing, day)] else []
  {
  }

  lemma {:induction false} FirstMatch(bs: seq<Booking>, id: string, user: string, i: nat)
    requires i < |bs| && Owned(bs[i], id, user) && forall j :: 0 <= j < i ==> !Owned(bs[j], id, user)
    ensures Find(bs, id, user) == i
  {
    assert !(i < Find(bs, id, user));
  }
}
