/** What holds of the bookings in every state the server can reach. */
module BookingInvariants {
  import opened TimeSlots
  import opened Bookings
  import opened SweepTheorems
  import opened ServerModel
  import opened Effects
  import opened Runs

  // ---------- no two bookings of a day conflict ----------

  /** Bookings of a day do not conflict, sit in the list of their own day, and there are none
      on a day the facility is closed. Holds whatever integers the requests carried. */
  predicate Sound(c: Calendar) {
    && c.Shaped()
    && forall d :: 0 <= d < 7 ==> SoundDay(c.days[d], c.booked[d], d)
  }

  predicate SoundDay(open: bool, bs: seq<Booking>, d: int) {
    && ConflictFree(bs)
    && (bs != [] ==> open)
    && forall i :: 0 <= i < |bs| ==> Index(bs[i].timeSlot.day) == d
  }

  predicate AllSound(fs: seq<Facility>) {
    forall i :: 0 <= i < |fs| ==> Sound(fs[i].calendar)
  }

  lemma BookSound(c: Calendar, id: string, user: string, slot: TimeSlot)
    requires Sound(c) && IsAvailable(c, slot)
    ensures Sound(Book(c, id, user, slot))
  {
    var d := Index(slot.day);
    assert SoundDay(c.days[d], c.booked[d], d);
    var bs' := c.booked[d] + [Booking(id, user, slot)];
    assert ConflictFree(bs');
    assert SoundDay(c.days[d], bs', d);
  }

  lemma WithoutSound(open: bool, bs: seq<Booking>, d: int, i: nat)
    requires i < |bs| && SoundDay(open, bs, d)
    ensures SoundDay(open, Without(bs, i), d)
  {
    var r := Without(bs, i);
    assert forall k :: 0 <= k < |r| ==> r[k] == bs[if k < i then k else k + 1];
  }

  lemma RemoveSound(c: Calendar, id: string, user: string)
    requires Sound(c)
    ensures Sound(Remove(c, id, user))
  {
    var d := FindDay(c.booked, id, user, 0);
    if d < |c.booked| {
      WithoutSound(c.days[d], c.booked[d], d, Find(c.booked[d], id, user));
    }
  }

  /** Taking a booking away cannot make a free slot taken. */
  lemma RemoveKeepsAvailable(c: Calendar, id: string, user: string, slot: TimeSlot)
    requires c.Shaped() && IsAvailable(c, slot)
    ensures IsAvailable(Remove(c, id, user), slot)
  {
    var d := FindDay(c.booked, id, user, 0);
    if d < |c.booked| {
      var i := Find(c.booked[d], id, user);
      var r := Without(c.booked[d], i);
      assert forall k :: 0 <= k < |r| ==> r[k] == c.booked[d][if k < i then k else k + 1];
    }
  }

  lemma ApplySound(fs: seq<Facility>, e: Effect)
    requires AllSound(fs) && Guarded(fs, e)
    ensures AllSound(Apply(fs, e))
  {
    hide Sound, IsAvailable, Book, Remove;
    match e
    case Booked(i, id, user, slot) => BookSound(fs[i].calendar, id, user, slot);
    case Moved(i, previous, id, user, slot) =>
      RemoveSound(fs[i].calendar, previous, user);
      RemoveKeepsAvailable(fs[i].calendar, previous, user, slot);
      BookSound(Remove(fs[i].calendar, previous, user), id, user, slot);
    case Removed(i, previous, user) => RemoveSound(fs[i].calendar, previous, user);
    case _ =>
  }

  lemma ExecuteSound(core: Core, a: Arrival)
    requires core.Shaped() && AllSound(core.facilities) && a.m.Some?
             && Execute(core, a.m.value, a.client, a.env).Executed?
    ensures AllSound(Execute(core, a.m.value, a.client, a.env).core.facilities)
  {
    hide Execute, EffectOf, Apply, AllSound;
    ExecuteApplies(core, a.m.value, a.client, a.env);
    ApplySound(core.facilities, EffectOf(core, a.m.value, a.client, a.env));
  }

  /** Every reachable state is sound, under either invocation semantics. */
  lemma ReachableSound(mach: Machine, checkHistory: bool, arrivals: seq<Arrival>)
    requires mach.st.core.Shaped() && AllSound(mach.st.core.facilities)
    ensures AllSound(Run(mach, checkHistory, arrivals).st.core.facilities)
  {
    hide AllSound, Execute, Step;
    var inv := (fs: seq<Facility>) => AllSound(fs);
    var allowed := (a: Arrival) => true;
    forall core: Core, a: Arrival | core.Shaped() && inv(core.facilities) && a.m.Some?
                                    && Execute(core, a.m.value, a.client, a.env).Executed?
      ensures inv(Execute(core, a.m.value, a.client, a.env).core.facilities)
    {
      ExecuteSound(core, a);
    }
    RunKeeps(mach, checkHistory, arrivals, inv, allowed);
  }

  // ---------- well-formed requests ----------

  /** Opening hours of a list of facilities: they never change. */
  predicate SameHours(fs: seq<Facility>, gs: seq<Facility>) {
    && |fs| == |gs|
    && forall i :: 0 <= i < |fs| ==>
         fs[i].name == gs[i].name && fs[i].calendar.days == gs[i].calendar.days
         && fs[i].calendar.opens == gs[i].calendar.opens && fs[i].calendar.closes == gs[i].calendar.closes
  }

  /** Every booking is non-empty and, where inHours is asked for, inside opening hours. */
  predicate Orderly(c: Calendar, inHours: bool) {
    && c.Shaped()
    && forall d, i :: 0 <= d < 7 && 0 <= i < |c.booked[d]| ==> OrderlySlot(c, d, c.booked[d][i].timeSlot, inHours)
  }

  predicate AllOrderly(fs: seq<Facility>, inHours: bool) {
    forall i :: 0 <= i < |fs| ==> Orderly(fs[i].calendar, inHours)
  }

  predicate OrderlySlot(c: Calendar, d: int, slot: TimeSlot, inHours: bool)
    requires c.Shaped() && 0 <= d < 7
  {
    slot.NonEmpty() && (inHours ==> slot.Within(c.opens[d], c.closes[d]))
  }

  /** The hypothesis on a request: the slot it asks for is non-empty and, where asked for,
      inside the opening hours of the facility it names. */
  predicate OrderlyRequest(fs: seq<Facility>, inHours: bool, a: Arrival) {
    a.m.Some? && Requested(a.m.value, a.env).Some? ==>
      var b := Requested(a.m.value, a.env).value;
      var i := FacilityIndex(fs, b.facilityName);
      i < |fs| && fs[i].calendar.Shaped() ==> OrderlySlot(fs[i].calendar, Index(b.slot.day), b.slot, inHours)
  }

  lemma {:induction false} SameIndex(fs: seq<Facility>, gs: seq<Facility>, name: string)
    requires SameHours(fs, gs)
    ensures FacilityIndex(fs, name) == FacilityIndex(gs, name)
  {
    var i, j := FacilityIndex(fs, name), FacilityIndex(gs, name);
    assert !(i < j) && !(j < i);
  }

  lemma BookOrderly(c: Calendar, id: string, user: string, slot: TimeSlot, inHours: bool)
    requires Orderly(c, inHours) && OrderlySlot(c, Index(slot.day), slot, inHours)
    ensures Orderly(Book(c, id, user, slot), inHours)
  {
  }

  lemma RemoveOrderly(c: Calendar, id: string, user: string, inHours: bool)
    requires Orderly(c, inHours)
    ensures Orderly(Remove(c, id, user), inHours)
  {
    var d := FindDay(c.booked, id, user, 0);
    if d < |c.booked| {
      var i := Find(c.booked[d], id, user);
      var r := Without(c.booked[d], i);
      assert forall k :: 0 <= k < |r| ==> r[k] == c.booked[d][if k < i then k else k + 1];
    }
  }

  lemma SameSlotRule(c: Calendar, id: string, user: string, slot: TimeSlot, inHours: bool)
    requires c.Shaped() && OrderlySlot(c, Index(slot.day), slot, inHours)
    ensures OrderlySlot(Remove(c, id, user), Index(slot.day), slot, inHours)
  {
  }

  lemma ApplyOrderly(fs: seq<Facility>, e: Effect, inHours: bool)
    requires AllOrderly(fs, inHours) && Guarded(fs, e)
    requires e.Booked? || e.Moved? ==> OrderlySlot(fs[e.i].calendar, Index(e.slot.day), e.slot, inHours)
    ensures AllOrderly(Apply(fs, e), inHours) && SameHours(fs, Apply(fs, e))
  {
    hide OrderlySlot, IsAvailable, Orderly;
    match e
    case Booked(i, id, user, slot) => BookOrderly(fs[i].calendar, id, user, slot, inHours);
    case Moved(i, previous, id, user, slot) =>
      RemoveOrderly(fs[i].calendar, previous, user, inHours);
      SameSlotRule(fs[i].calendar, previous, user, slot, inHours);
      BookOrderly(Remove(fs[i].calendar, previous, user), id, user, slot, inHours);
    case Removed(i, previous, user) => RemoveOrderly(fs[i].calendar, previous, user, inHours);
    case _ =>
  }

  /** Opening hours of gs, orderly bookings. */
  predicate OrderlyLike(gs: seq<Facility>, inHours: bool, fs: seq<Facility>) {
    AllOrderly(fs, inHours) && SameHours(gs, fs)
  }

  lemma ExecuteOrderly(gs: seq<Facility>, inHours: bool, core: Core, a: Arrival)
    requires core.Shaped() && OrderlyLike(gs, inHours, core.facilities) && OrderlyRequest(gs, inHours, a)
    requires forall i :: 0 <= i < |gs| ==> gs[i].calendar.Shaped()
    requires a.m.Some? && Execute(core, a.m.value, a.client, a.env).Executed?
    ensures OrderlyLike(gs, inHours, Execute(core, a.m.value, a.client, a.env).core.facilities)
  {
    hide Execute, Apply, AllOrderly, Requested, IsAvailable, Guarded;
    var e := EffectOf(core, a.m.value, a.client, a.env);
    ExecuteApplies(core, a.m.value, a.client, a.env);
    if Requested(a.m.value, a.env).Some? {
      SameIndex(gs, core.facilities, Requested(a.m.value, a.env).value.facilityName);
    }
    ApplyOrderly(core.facilities, e, inHours);
  }

  /** When every request asks for a non-empty slot (inside opening hours), every booking in
      every reachable state is one, and opening hours are as they were. */
  lemma ReachableOrderly(mach: Machine, checkHistory: bool, arrivals: seq<Arrival>, inHours: bool)
    requires mach.st.core.Shaped() && AllOrderly(mach.st.core.facilities, inHours)
    requires forall a <- arrivals :: OrderlyRequest(mach.st.core.facilities, inHours, a)
    ensures AllOrderly(Run(mach, checkHistory, arrivals).st.core.facilities, inHours)
    ensures SameHours(mach.st.core.facilities, Run(mach, checkHistory, arrivals).st.core.facilities)
  {
    hide AllOrderly, Execute, Step, OrderlyRequest;
    var gs := mach.st.core.facilities;
    var inv := (fs: seq<Facility>) => OrderlyLike(gs, inHours, fs);
    var allowed := (a: Arrival) => OrderlyRequest(gs, inHours, a);
    forall core: Core, a: Arrival | core.Shaped() && inv(core.facilities) && a.m.Some? && allowed(a)
                                    && Execute(core, a.m.value, a.client, a.env).Executed?
      ensures inv(Execute(core, a.m.value, a.client, a.env).core.facilities)
    {
      ExecuteOrderly(gs, inHours, core, a);
    }
    RunKeeps(mach, checkHistory, arrivals, inv, allowed);
  }

  // ---------- consequences over whole runs ----------

  lemma SoundDays(c: Calendar, day: Day)
    requires Sound(c)
    ensures ConflictFree(c.booked[Index(day)])
  {
    assert SoundDay(c.days[Index(day)], c.booked[Index(day)], Index(day));
  }

  lemma OrderlyRegular(c: Calendar, day: Day)
    requires Sound(c) && Orderly(c, true) && c.days[Index(day)]
    requires Before(c.opens[Index(day)], c.closes[Index(day)])
    ensures Regular(c, day)
  {
    SoundDays(c, day);
  }

  lemma OrderlyNonEmpty(c: Calendar, day: Day)
    requires Orderly(c, false)
    ensures AllNonEmpty(c.booked[Index(day)])
  {
  }

  /** After any run of requests for non-empty slots, in or out of opening hours, every slot
      the server offers is non-empty and can be booked as it stands. */
  lemma ReachableOffers(mach: Machine, checkHistory: bool, arrivals: seq<Arrival>, i: nat, day: Day)
    requires mach.st.core.Shaped() && AllOrderly(mach.st.core.facilities, false) && AllSound(mach.st.core.facilities)
    requires forall a <- arrivals :: OrderlyRequest(mach.st.core.facilities, false, a)
    requires i < |mach.st.core.facilities|
    ensures var fs := Run(mach, checkHistory, arrivals).st.core.facilities;
            && i < |fs|
            && forall g <- FreeSlots(fs[i].calendar, day) ::
                 g.NonEmpty() && g.day == day && IsAvailable(fs[i].calendar, g)
  {
    hide OrderlyRequest, Sound, Orderly, FreeSlots, IsAvailable, Step;
    ReachableSound(mach, checkHistory, arrivals);
    ReachableOrderly(mach, checkHistory, arrivals, false);
    var c := Run(mach, checkHistory, arrivals).st.core.facilities[i].calendar;
    SoundDays(c, day);
    OrderlyNonEmpty(c, day);
    OfferedSlotsAreAvailable(c, day);
  }

  /** After any run of requests for non-empty slots inside opening hours, every open day is
      regular, so that its free slots are exactly the complement of its bookings, and free
      and booked minutes add up to the opening minutes. */
  lemma ReachableConservation(mach: Machine, checkHistory: bool, arrivals: seq<Arrival>, i: nat, day: Day)
    requires mach.st.core.Shaped() && AllOrderly(mach.st.core.facilities, true) && AllSound(mach.st.core.facilities)
    requires forall a <- arrivals :: OrderlyRequest(mach.st.core.facilities, true, a)
    requires i < |mach.st.core.facilities|
    requires var c := mach.st.core.facilities[i].calendar;
             c.days[Index(day)] && Before(c.opens[Index(day)], c.closes[Index(day)])
    ensures var fs := Run(mach, checkHistory, arrivals).st.core.facilities;
            var c := mach.st.core.facilities[i].calendar;
            && i < |fs| && Regular(fs[i].calendar, day)
            && FreeMinutes(FreeSlots(fs[i].calendar, day)) + BookedMinutes(fs[i].calendar.booked[Index(day)])
               == Minutes(c.closes[Index(day)]) - Minutes(c.opens[Index(day)])
  {
    hide OrderlyRequest, Sound, Orderly, FreeSlots, FreeMinutes, BookedMinutes, Step, Regular;
    ReachableSound(mach, checkHistory, arrivals);
    ReachableOrderly(mach, checkHistory, arrivals, true);
    var c := Run(mach, checkHistory, arrivals).st.core.facilities[i].calendar;
    OrderlyRegular(c, day);
    MinutesConserved(c, day);
  }
}
