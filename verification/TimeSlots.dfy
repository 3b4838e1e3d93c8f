/** Days, times of day and time slots. Hours and minutes are whatever integers a request
    carried: nothing in the program normalises or checks them. */
module TimeSlots {

  datatype Day = MONDAY | TUESDAY | WEDNESDAY | THURSDAY | FRIDAY | SATURDAY | SUNDAY

  const WEEK: seq<Day> := [MONDAY, TUESDAY, WEDNESDAY, THURSDAY, FRIDAY, SATURDAY, SUNDAY]

  /** Position in the week, counted from 0. */
  function Index(day: Day): (i: nat)
    ensures i < 7 && WEEK[i] == day
  {
    match day
    case MONDAY => 0
    case TUESDAY => 1
    case WEDNESDAY => 2
    case THURSDAY => 3
    case FRIDAY => 4
    case SATURDAY => 5
    case SUNDAY => 6
  }

  datatype Time = Time(hour: int, minute: int)

  /** The order every comparison in the program uses: hour first, then minute. */
  predicate Before(a: Time, b: Time) {
    a.hour < b.hour || (a.hour == b.hour && a.minute < b.minute)
  }

  predicate AtMost(a: Time, b: Time) { !Before(b, a) }

  function Minutes(t: Time): int { 60 * t.hour + t.minute }

  datatype TimeSlot = TimeSlot(startHour: int, startMinute: int, endHour: int, endMinute: int, day: Day) {
    function Start(): Time { Time(startHour, startMinute) }

    function End(): Time { Time(endHour, endMinute) }

    predicate NonEmpty() { Before(Start(), End()) }

    /** Whether time t lies in the slot; the end does not. */
    predicate Covers(t: Time) { AtMost(Start(), t) && Before(t, End()) }

    predicate Within(opening: Time, closing: Time) { AtMost(opening, Start()) && AtMost(End(), closing) }

    predicate ConflictsWith(other: TimeSlot) {
      if endHour < other.startHour || (endHour == other.startHour && endMinute <= other.startMinute) then false
      else if startHour > other.endHour || (startHour == other.endHour && startMinute >= other.endMinute) then false
      else true
    }
  }

  /** The test the server makes is symmetric, for degenerate slots too. */
  lemma ConflictSymmetric(a: TimeSlot, b: TimeSlot)
    ensures a.ConflictsWith(b) <==> b.ConflictsWith(a)
  {
  }

  /** Two non-empty slots conflict exactly when some time lies in both. */
  lemma ConflictIsOverlap(a: TimeSlot, b: TimeSlot)
    requires a.NonEmpty() && b.NonEmpty()
    ensures a.ConflictsWith(b) <==> exists t :: a.Covers(t) && b.Covers(t)
  {
    if a.ConflictsWith(b) {
      if AtMost(a.Start(), b.Start()) {
        assert a.Covers(b.Start()) && b.Covers(b.Start());
      } else {
        assert a.Covers(a.Start()) && b.Covers(a.Start());
      }
    }
  }

  // ---------- whole minutes ----------

  /** C++ integer division: rounds toward zero. */
  function TruncatedDiv(a: int, b: int): int
    requires b > 0
  {
    if a >= 0 then a / b else -(-a / b)
  }

  /** C++ remainder: takes the sign of the dividend. */
  function TruncatedMod(a: int, b: int): int
    requires b > 0
  {
    a - b * TruncatedDiv(a, b)
  }

  /** Hour and minute of a number of minutes as the client splits it. */
  function Split(total: int): (t: Time)
    ensures Minutes(t) == total
  {
    Time(TruncatedDiv(total, 60), TruncatedMod(total, 60))
  }

  /** C++ division leaves hour and minute the sign of the total, and no other time with less
      than sixty minutes does. */
  lemma SplitUnique(total: int, t: Time)
    ensures t == Split(total)
            <==> Minutes(t) == total && -60 < t.minute < 60
                 && (if total >= 0 then t.hour >= 0 && t.minute >= 0 else t.hour <= 0 && t.minute <= 0)
  {
  }

  /** The split keeps the order, below zero as well, so comparing split times by hour and
      minute is comparing totals. */
  lemma SplitOrder(a: int, b: int)
    ensures Before(Split(a), Split(b)) <==> a < b
  {
    if a <= b { DivideOrder(a, b); } else { DivideOrder(b, a); }
  }

  lemma DivideOrder(a: int, b: int)
    requires a <= b
    ensures TruncatedDiv(a, 60) <= TruncatedDiv(b, 60)
  {
  }

  /** A slot both of whose ends were computed by splitting a number of minutes. */
  function SplitSlot(from: int, to: int, day: Day): TimeSlot {
    var s, e := Split(from), Split(to);
    TimeSlot(s.hour, s.minute, e.hour, e.minute, day)
  }

  /** Conflict of shifted slots is overlap in minutes. */
  lemma ConflictInMinutes(a: int, b: int, c: int, d: int, day: Day)
    ensures SplitSlot(a, b, day).ConflictsWith(SplitSlot(c, d, day)) <==> c < b && a < d
  {
    SplitOrder(c, b);
    SplitOrder(a, d);
  }

  /** The slot a client asks for when it moves this one by so many minutes. */
  function ShiftedSlot(slot: TimeSlot, offset: int): (r: TimeSlot)
    ensures r.day == slot.day
  {
    SplitSlot(Minutes(slot.Start()) + offset, Minutes(slot.End()) + offset, slot.day)
  }

  /** How long a slot is in minutes; negative when it runs backwards. */
  function Duration(slot: TimeSlot): int { Minutes(slot.End()) - Minutes(slot.Start()) }

  /** A slot that conflicts with every move of it by less than its duration. */
  ghost predicate ResistsSmallMoves(slot: TimeSlot) {
    forall offset :: -Duration(slot) < offset < Duration(slot) ==> slot.ConflictsWith(ShiftedSlot(slot, offset))
  }

  /** The last minute of the slot, split, comes before its end, and the second after its
      start. This is so whenever minutes run from 0 to 59; it fails for 9:00 to 9:75. */
  predicate InnerEndsInOrder(slot: TimeSlot) {
    Before(Split(Minutes(slot.End()) - 1), slot.End()) && Before(slot.Start(), Split(Minutes(slot.Start()) + 1))
  }

  /** The exact condition under which a slot is in the way of all its small moves. */
  lemma SmallMovesIff(slot: TimeSlot)
    requires Duration(slot) > 0
    ensures ResistsSmallMoves(slot) <==> InnerEndsInOrder(slot)
  {
    hide Split;
    var s, e := Minutes(slot.Start()), Minutes(slot.End());
    assert slot.ConflictsWith(ShiftedSlot(slot, e - 1 - s)) ==> Before(Split(e - 1), slot.End());
    assert slot.ConflictsWith(ShiftedSlot(slot, s + 1 - e)) ==> Before(slot.Start(), Split(s + 1));
    if InnerEndsInOrder(slot) {
      forall offset | -Duration(slot) < offset < Duration(slot) ensures slot.ConflictsWith(ShiftedSlot(slot, offset)) {
        SplitOrder(e - 1, s + offset);
        SplitOrder(e + offset, s + 1);
      }
    }
  }

  /** Slots a client has computed always resist, below zero too. */
  lemma SplitSlotsResist(from: int, to: int, day: Day)
    requires from < to
    ensures ResistsSmallMoves(SplitSlot(from, to, day))
  {
    hide Split;
    var slot := SplitSlot(from, to, day);
    SplitOrder(to - 1, to);
    SplitOrder(from, from + 1);
    SmallMovesIff(slot);
  }

  /** Minutes from 0 to 59 are enough. */
  lemma ProperMinutesResist(slot: TimeSlot)
    requires Duration(slot) > 0 && 0 <= slot.startHour && 0 <= slot.endHour
    requires 0 <= slot.startMinute < 60 && 0 <= slot.endMinute < 60
    ensures ResistsSmallMoves(slot)
  {
    SmallMovesIff(slot);
  }
}
