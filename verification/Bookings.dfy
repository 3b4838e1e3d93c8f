/** The bookings of one facility as a value: what the availability operations compute. */
module Bookings {
  import opened Basics
  import opened TimeSlots

  datatype Booking = Booking(confirmationID: string, userInfo: string, timeSlot: TimeSlot)

  /** Opening hours and bookings for each day of the week. */
  datatype Calendar = Calendar(days: seq<bool>, opens: seq<Time>, closes: seq<Time>, booked: seq<seq<Booking>>) {
    predicate Shaped() { |days| == |opens| == |closes| == |booked| == 7 }
  }

  predicate IsAvailable(c: Calendar, slot: TimeSlot)
    requires c.Shaped()
  {
    c.days[Index(slot.day)] && NoneConflicts(c.booked[Index(slot.day)], slot)
  }

  predicate NoneConflicts(bs: seq<Booking>, slot: TimeSlot) {
    forall i :: 0 <= i < |bs| ==> !bs[i].timeSlot.ConflictsWith(slot)
  }

  function Book(c: Calendar, id: string, user: string, slot: TimeSlot): (c': Calendar)
    requires c.Shaped()
    ensures c'.Shaped()
  {
    var d := Index(slot.day);
    c.(booked := c.booked[d := c.booked[d] + [Booking(id, user, slot)]])
  }

  predicate Owned(b: Booking, id: string, user: string) {
    b.confirmationID == id && b.userInfo == user
  }

  /** Position of the first booking with this ID that belongs to this user, or |bs|. */
  function Find(bs: seq<Booking>, id: string, user: string): (i: nat)
    ensures i <= |bs| && (i < |bs| ==> Owned(bs[i], id, user))
    ensures forall j :: 0 <= j < i ==> !Owned(bs[j], id, user)
  {
    if bs == [] || Owned(bs[0], id, user) then 0 else 1 + Find(bs[1..], id, user)
  }

  /** First day on or after d with such a booking, or the number of days. */
  function FindDay(days: seq<seq<Booking>>, id: string, user: string, d: nat): (r: nat)
    requires d <= |days|
    ensures d <= r <= |days|
    ensures r < |days| ==> Find(days[r], id, user) < |days[r]|
    ensures forall e :: d <= e < r ==> Find(days[e], id, user) == |days[e]|
    decreases |days| - d
  {
    if d == |days| || Find(days[d], id, user) < |days[d]| then d else FindDay(days, id, user, d + 1)
  }

  function Without(bs: seq<Booking>, i: nat): (r: seq<Booking>)
    requires i < |bs|
    ensures |r| == |bs| - 1
  {
    bs[..i] + bs[i + 1..]
  }

  /** Whether the user owns a booking with this ID. */
  predicate Has(c: Calendar, id: string, user: string) {
    FindDay(c.booked, id, user, 0) < |c.booked|
  }

  function Remove(c: Calendar, id: string, user: string): (c': Calendar)
    requires c.Shaped()
    ensures c'.Shaped()
  {
    var d := FindDay(c.booked, id, user, 0);
    if d == |c.booked| then c
    else c.(booked := c.booked[d := Without(c.booked[d], Find(c.booked[d], id, user))])
  }

  /** First booking with this ID, whoever owns it. */
  function Lookup(bs: seq<Booking>, id: string): (r: Option<Booking>) {
    if bs == [] then None
    else if bs[0].confirmationID == id then Some(bs[0]) else Lookup(bs[1..], id)
  }

  function LookupFrom(days: seq<seq<Booking>>, id: string): (r: Option<Booking>) {
    if days == [] then None
    else if Lookup(days[0], id).Some? then Lookup(days[0], id) else LookupFrom(days[1..], id)
  }

  function BookingInfo(c: Calendar, id: string): Option<Booking> { LookupFrom(c.booked, id) }

  // ---------- free slots ----------

  /** Puts b before the first booking that does not start earlier. */
  function Insert(b: Booking, bs: seq<Booking>): (r: seq<Booking>) {
    if bs == [] || !Before(bs[0].timeSlot.Start(), b.timeSlot.Start()) then [b] + bs
    else [bs[0]] + Insert(b, bs[1..])
  }

  /** The stable sort by start time. */
  function SortByStart(bs: seq<Booking>): (r: seq<Booking>) {
    if bs == [] then [] else Insert(bs[0], SortByStart(bs[1..]))
  }

  function Gap(from: Time, to: Time, day: Day): TimeSlot {
    TimeSlot(from.hour, from.minute, to.hour, to.minute, day)
  }

  function GapIfAny(from: Time, to: Time, day: Day): (r: seq<TimeSlot>) {
    if Before(from, to) then [Gap(from, to, day)] else []
  }

  /** The sweep over sorted bookings. The cursor moves to the end of each booking, even if
      that is earlier than where it was. */
  function Sweep(bs: seq<Booking>, cursor: Time, closing: Time, day: Day): (r: seq<TimeSlot>) {
    if bs == [] then GapIfAny(cursor, closing, day)
    else GapIfAny(cursor, bs[0].timeSlot.Start(), day) + Sweep(bs[1..], bs[0].timeSlot.End(), closing, day)
  }

  function FreeSlots(c: Calendar, day: Day): (r: seq<TimeSlot>)
    requires c.Shaped()
  {
    var d := Index(day);
    if !c.days[d] then [] else Sweep(SortByStart(c.booked[d]), c.opens[d], c.closes[d], day)
  }
}
