/** What the sweep over sorted bookings returns: always bookable slots, and exactly the
    complement of the bookings when these lie inside opening hours. */
module SweepTheorems {
  import opened TimeSlots
  import opened Bookings

  // ---------- what is assumed of a day's bookings ----------

  predicate AllNonEmpty(bs: seq<Booking>) {
    forall i :: 0 <= i < |bs| ==> bs[i].timeSlot.NonEmpty()
  }

  predicate ConflictFree(bs: seq<Booking>) {
    forall i, j :: 0 <= i < j < |bs| ==> !bs[i].timeSlot.ConflictsWith(bs[j].timeSlot)
  }

  predicate AllWithin(bs: seq<Booking>, opening: Time, closing: Time) {
    forall i :: 0 <= i < |bs| ==> bs[i].timeSlot.Within(opening, closing)
  }

  /** Each booking ends before any later one starts. */
  predicate Chain(bs: seq<Booking>) {
    forall i, j :: 0 <= i < j < |bs| ==> AtMost(bs[i].timeSlot.End(), bs[j].timeSlot.Start())
  }

  predicate Sorted(bs: seq<Booking>) {
    forall i, j :: 0 <= i < j < |bs| ==> AtMost(bs[i].timeSlot.Start(), bs[j].timeSlot.Start())
  }

  // ---------- sorting ----------

  lemma {:induction false} InsertContents(b: Booking, bs: seq<Booking>)
    ensures multiset(Insert(b, bs)) == multiset(bs) + multiset{b}
    ensures |Insert(b, bs)| == |bs| + 1
  {
    if bs != [] && Before(bs[0].timeSlot.Start(), b.timeSlot.Start()) {
      InsertContents(b, bs[1..]);
      assert bs == [bs[0]] + bs[1..];
    }
  }

  lemma {:induction false} SortContents(bs: seq<Booking>)
    ensures multiset(SortByStart(bs)) == multiset(bs) && |SortByStart(bs)| == |bs|
  {
    if bs != [] {
      SortContents(bs[1..]);
      InsertContents(bs[0], SortByStart(bs[1..]));
      assert bs == [bs[0]] + bs[1..];
    }
  }

  lemma {:induction false} InsertMember(b: Booking, bs: seq<Booking>, x: Booking)
    ensures x in Insert(b, bs) <==> x == b || x in bs
  {
    InsertContents(b, bs);
    assert x in Insert(b, bs) <==> x in multiset(Insert(b, bs));
    assert x in bs <==> x in multiset(bs);
  }

  lemma SortMember(bs: seq<Booking>, x: Booking)
    ensures x in SortByStart(bs) <==> x in bs
  {
    SortContents(bs);
    assert x in SortByStart(bs) <==> x in multiset(SortByStart(bs));
    assert x in bs <==> x in multiset(bs);
  }

  lemma {:induction false} InsertSorted(b: Booking, bs: seq<Booking>)
    requires Sorted(bs)
    ensures Sorted(Insert(b, bs))
  {
    if bs != [] && Before(bs[0].timeSlot.Start(), b.timeSlot.Start()) {
      assert forall i :: 0 <= i < |bs| - 1 ==> bs[1..][i] == bs[i + 1];
      InsertSorted(b, bs[1..]);
      var r := Insert(b, bs[1..]);
      forall x | x in r ensures AtMost(bs[0].timeSlot.Start(), x.timeSlot.Start()) {
        InsertMember(b, bs[1..], x);
      }
      assert forall i :: 0 <= i < |r| ==> r[i] in r;
    }
  }

  lemma {:induction false} SortSorted(bs: seq<Booking>)
    ensures Sorted(SortByStart(bs))
  {
    if bs != [] {
      SortSorted(bs[1..]);
      InsertSorted(bs[0], SortByStart(bs[1..]));
    }
  }

  lemma {:induction false} InsertConflictFree(b: Booking, bs: seq<Booking>)
    requires ConflictFree(bs) && NoneConflicts(bs, b.timeSlot)
    ensures ConflictFree(Insert(b, bs))
  {
    if bs == [] || !Before(bs[0].timeSlot.Start(), b.timeSlot.Start()) {
      assert forall i :: 0 <= i < |bs| ==> !b.timeSlot.ConflictsWith(bs[i].timeSlot);
    } else {
      InsertConflictFree(b, bs[1..]);
      var r := Insert(b, bs[1..]);
      forall x | x in r ensures !bs[0].timeSlot.ConflictsWith(x.timeSlot) {
        InsertMember(b, bs[1..], x);
      }
      assert forall i :: 0 <= i < |r| ==> r[i] in r;
    }
  }

  lemma {:induction false} SortConflictFree(bs: seq<Booking>)
    requires ConflictFree(bs)
    ensures ConflictFree(SortByStart(bs))
  {
    if bs != [] {
      SortConflictFree(bs[1..]);
      var r := SortByStart(bs[1..]);
      forall i | 0 <= i < |r| ensures !r[i].timeSlot.ConflictsWith(bs[0].timeSlot) {
        assert r[i] in r;
        SortMember(bs[1..], r[i]);
      }
      InsertConflictFree(bs[0], r);
    }
  }

  /** Sorting non-empty bookings without conflicts lines them up one after the other. */
  lemma SortedChain(bs: seq<Booking>)
    requires AllNonEmpty(bs) && ConflictFree(bs)
    ensures Chain(SortByStart(bs)) && AllNonEmpty(SortByStart(bs))
  {
    SortSorted(bs);
    SortConflictFree(bs);
    var r := SortByStart(bs);
    forall i | 0 <= i < |r| ensures r[i].timeSlot.NonEmpty() {
      assert r[i] in r;
      SortMember(bs, r[i]);
    }
  }

  lemma SortWithin(bs: seq<Booking>, opening: Time, closing: Time)
    requires AllWithin(bs, opening, closing)
    ensures AllWithin(SortByStart(bs), opening, closing)
  {
    var r := SortByStart(bs);
    forall i | 0 <= i < |r| ensures r[i].timeSlot.Within(opening, closing) {
      assert r[i] in r;
      SortMember(bs, r[i]);
    }
  }

  lemma SortNoneConflicts(bs: seq<Booking>, slot: TimeSlot)
    ensures NoneConflicts(SortByStart(bs), slot) <==> NoneConflicts(bs, slot)
  {
    var r := SortByStart(bs);
    forall i | 0 <= i < |r| ensures r[i] in bs {
      assert r[i] in r;
      SortMember(bs, r[i]);
    }
    forall i | 0 <= i < |bs| ensures bs[i] in r {
      assert bs[i] in bs;
      SortMember(bs, bs[i]);
    }
  }

  lemma ChainTail(bs: seq<Booking>)
    requires bs != [] && Chain(bs) && AllNonEmpty(bs)
    ensures Chain(bs[1..]) && AllNonEmpty(bs[1..])
    ensures forall i :: 0 <= i < |bs[1..]| ==> AtMost(bs[0].timeSlot.End(), bs[1..][i].timeSlot.Start())
  {
    assert forall i :: 0 <= i < |bs| - 1 ==> bs[1..][i] == bs[i + 1];
  }

  // ---------- every gap can be booked ----------

  /** Each of these slots is non-empty, on this day, and free of every one of bs. */
  predicate AllBookable(gaps: seq<TimeSlot>, day: Day, bs: seq<Booking>) {
    forall k :: 0 <= k < |gaps| ==> gaps[k].NonEmpty() && gaps[k].day == day && NoneConflicts(bs, gaps[k])
  }

  /** Between the first k bookings and the others there is room. */
  lemma GapBookable(bs: seq<Booking>, k: nat, from: Time, to: Time, day: Day)
    requires k <= |bs|
    requires forall i :: 0 <= i < k ==> AtMost(bs[i].timeSlot.End(), from)
    requires forall i :: k <= i < |bs| ==> AtMost(to, bs[i].timeSlot.Start())
    ensures AllBookable(GapIfAny(from, to, day), day, bs)
  {
  }

  lemma BookableAppend(a: seq<TimeSlot>, b: seq<TimeSlot>, day: Day, bs: seq<Booking>)
    requires AllBookable(a, day, bs) && AllBookable(b, day, bs)
    ensures AllBookable(a + b, day, bs)
  {
    hide NoneConflicts;
  }

  lemma {:induction false} SweepBookable(bs: seq<Booking>, k: nat, cursor: Time, closing: Time, day: Day)
    requires Chain(bs) && AllNonEmpty(bs) && k <= |bs|
    requires k > 0 ==> cursor == bs[k - 1].timeSlot.End()
    ensures AllBookable(Sweep(bs[k..], cursor, closing, day), day, bs)
    decreases |bs| - k
  {
    hide AllBookable, GapIfAny;
    EndedBefore(bs, k);
    if k < |bs| {
      var to := bs[k].timeSlot.Start();
      SweepBookable(bs, k + 1, bs[k].timeSlot.End(), closing, day);
      assert bs[k..][1..] == bs[k + 1..];
      StartLater(bs, k);
      GapBookable(bs, k, cursor, to, day);
      BookableAppend(GapIfAny(cursor, to, day), Sweep(bs[k + 1..], bs[k].timeSlot.End(), closing, day), day, bs);
    } else {
      GapBookable(bs, k, cursor, closing, day);
    }
  }

  lemma EndedBefore(bs: seq<Booking>, k: nat)
    requires Chain(bs) && AllNonEmpty(bs) && 0 <= k <= |bs|
    ensures forall i :: 0 <= i < k ==> AtMost(bs[i].timeSlot.End(), bs[k - 1].timeSlot.End())
  {
    forall i | 0 <= i < k - 1 ensures AtMost(bs[i].timeSlot.End(), bs[k - 1].timeSlot.End()) {
      assert AtMost(bs[i].timeSlot.End(), bs[k - 1].timeSlot.Start()) && bs[k - 1].timeSlot.NonEmpty();
    }
  }

  lemma StartLater(bs: seq<Booking>, k: nat)
    requires Chain(bs) && AllNonEmpty(bs) && k < |bs|
    ensures forall i :: k <= i < |bs| ==> AtMost(bs[k].timeSlot.Start(), bs[i].timeSlot.Start())
  {
    forall i | k < i < |bs| ensures AtMost(bs[k].timeSlot.Start(), bs[i].timeSlot.Start()) {
      assert AtMost(bs[k].timeSlot.End(), bs[i].timeSlot.Start()) && bs[k].timeSlot.NonEmpty();
    }
  }

  /** Every slot the query offers can be booked as it stands, wherever the bookings lie
      relative to opening hours. */
  lemma OfferedSlotsAreAvailable(c: Calendar, day: Day)
    requires c.Shaped()
    requires AllNonEmpty(c.booked[Index(day)]) && ConflictFree(c.booked[Index(day)])
    ensures forall g <- FreeSlots(c, day) :: g.NonEmpty() && g.day == day && IsAvailable(c, g)
  {
    var d := Index(day);
    var bs := c.booked[d];
    if c.days[d] {
      SortedChain(bs);
      var sorted := SortByStart(bs);
      assert sorted[0..] == sorted;
      SweepBookable(sorted, 0, c.opens[d], c.closes[d], day);
      forall g | g in FreeSlots(c, day) ensures g.NonEmpty() && g.day == day && IsAvailable(c, g) {
        SortNoneConflicts(bs, g);
      }
    }
  }

  // ---------- the gaps are exactly the complement ----------

  ghost predicate SomeCovers(gaps: seq<TimeSlot>, t: Time) {
    exists k :: 0 <= k < |gaps| && gaps[k].Covers(t)
  }

  predicate NoneCovers(bs: seq<Booking>, t: Time) {
    forall i :: 0 <= i < |bs| ==> !bs[i].timeSlot.Covers(t)
  }

  lemma CoversAppend(a: seq<TimeSlot>, b: seq<TimeSlot>, t: Time)
    ensures SomeCovers(a + b, t) <==> SomeCovers(a, t) || SomeCovers(b, t)
  {
    if SomeCovers(a, t) {
      var k :| 0 <= k < |a| && a[k].Covers(t);
      assert (a + b)[k].Covers(t);
    }
    if SomeCovers(b, t) {
      var k :| 0 <= k < |b| && b[k].Covers(t);
      assert (a + b)[|a| + k].Covers(t);
    }
  }

  lemma {:induction false} SweepCovers(bs: seq<Booking>, cursor: Time, closing: Time, day: Day, t: Time)
    requires Chain(bs) && AllNonEmpty(bs) && AllWithin(bs, cursor, closing)
    ensures SomeCovers(Sweep(bs, cursor, closing, day), t)
            <==> AtMost(cursor, t) && Before(t, closing) && NoneCovers(bs, t)
  {
    if bs == [] {
      CoversGap(cursor, closing, day, t);
    } else {
      var b := bs[0].timeSlot;
      ChainTail(bs);
      CoversGap(cursor, b.Start(), day, t);
      SweepCovers(bs[1..], b.End(), closing, day, t);
      CoversAppend(GapIfAny(cursor, b.Start(), day), Sweep(bs[1..], b.End(), closing, day), t);
      NoneCoversSplit(bs, t);
    }
  }

  lemma CoversGap(from: Time, to: Time, day: Day, t: Time)
    ensures SomeCovers(GapIfAny(from, to, day), t) <==> AtMost(from, t) && Before(t, to)
  {
    if AtMost(from, t) && Before(t, to) {
      assert GapIfAny(from, to, day)[0].Covers(t);
    }
  }

  lemma NoneCoversSplit(bs: seq<Booking>, t: Time)
    requires bs != []
    ensures NoneCovers(bs, t) <==> !bs[0].timeSlot.Covers(t) && NoneCovers(bs[1..], t)
    ensures forall i :: 0 < i < |bs| ==> bs[i] == bs[1..][i - 1]
  {
  }

  /** Non-empty gaps in order, with something booked between any two. */
  predicate Maximal(gaps: seq<TimeSlot>, opening: Time, closing: Time) {
    && (forall k :: 0 <= k < |gaps| ==> gaps[k].NonEmpty() && gaps[k].Within(opening, closing))
    && (forall k, l :: 0 <= k < l < |gaps| ==> Before(gaps[k].End(), gaps[l].Start()))
  }

  lemma {:induction false} SweepMaximal(bs: seq<Booking>, cursor: Time, closing: Time, day: Day)
    requires Chain(bs) && AllNonEmpty(bs) && AllWithin(bs, cursor, closing)
    ensures Maximal(Sweep(bs, cursor, closing, day), cursor, closing)
  {
    if bs != [] {
      ChainTail(bs);
      SweepMaximal(bs[1..], bs[0].timeSlot.End(), closing, day);
    }
  }

  ghost predicate FitsOne(gaps: seq<TimeSlot>, slot: TimeSlot) {
    exists k :: 0 <= k < |gaps| && slot.Within(gaps[k].Start(), gaps[k].End())
  }

  lemma FitsAppend(a: seq<TimeSlot>, b: seq<TimeSlot>, slot: TimeSlot)
    ensures FitsOne(a + b, slot) <==> FitsOne(a, slot) || FitsOne(b, slot)
  {
    if FitsOne(a, slot) {
      var k :| 0 <= k < |a| && slot.Within(a[k].Start(), a[k].End());
      assert slot.Within((a + b)[k].Start(), (a + b)[k].End());
    }
    if FitsOne(b, slot) {
      var k :| 0 <= k < |b| && slot.Within(b[k].Start(), b[k].End());
      assert slot.Within((a + b)[|a| + k].Start(), (a + b)[|a| + k].End());
    }
  }

  lemma FitsGap(from: Time, to: Time, day: Day, slot: TimeSlot)
    requires slot.NonEmpty()
    ensures FitsOne(GapIfAny(from, to, day), slot) <==> slot.Within(from, to)
  {
    if slot.Within(from, to) {
      var g := GapIfAny(from, to, day);
      assert slot.Within(g[0].Start(), g[0].End());
    }
  }

  lemma NoneConflictsSplit(bs: seq<Booking>, slot: TimeSlot)
    requires bs != []
    ensures NoneConflicts(bs, slot) <==> !bs[0].timeSlot.ConflictsWith(slot) && NoneConflicts(bs[1..], slot)
    ensures forall i :: 0 < i < |bs| ==> bs[i] == bs[1..][i - 1]
  {
  }

  lemma {:induction false} SweepFits(bs: seq<Booking>, cursor: Time, closing: Time, day: Day, slot: TimeSlot)
    requires Chain(bs) && AllNonEmpty(bs) && AllWithin(bs, cursor, closing)
    requires slot.NonEmpty() && slot.Within(cursor, closing)
    ensures FitsOne(Sweep(bs, cursor, closing, day), slot) <==> NoneConflicts(bs, slot)
  {
    if bs == [] {
      FitsGap(cursor, closing, day, slot);
    } else {
      var b := bs[0].timeSlot;
      ChainTail(bs);
      FitsGap(cursor, b.Start(), day, slot);
      FitsAppend(GapIfAny(cursor, b.Start(), day), Sweep(bs[1..], b.End(), closing, day), slot);
      NoneConflictsSplit(bs, slot);
      if AtMost(b.End(), slot.Start()) {
        SweepFits(bs[1..], b.End(), closing, day, slot);
      } else {
        SweepMaximal(bs[1..], b.End(), closing, day);
      }
    }
  }

  /** What exactness needs of a day. */
  predicate Regular(c: Calendar, day: Day)
    requires c.Shaped()
  {
    var d := Index(day);
    && c.days[d] && Before(c.opens[d], c.closes[d])
    && AllNonEmpty(c.booked[d]) && ConflictFree(c.booked[d])
    && AllWithin(c.booked[d], c.opens[d], c.closes[d])
  }

  /** The query returns the complement of the bookings within opening hours, as maximal gaps
      in order. */
  lemma FreeSlotsExact(c: Calendar, day: Day)
    requires c.Shaped() && Regular(c, day)
    ensures var d := Index(day);
            && Maximal(FreeSlots(c, day), c.opens[d], c.closes[d])
            && forall t :: SomeCovers(FreeSlots(c, day), t)
                           <==> AtMost(c.opens[d], t) && Before(t, c.closes[d]) && NoneCovers(c.booked[d], t)
  {
    var d := Index(day);
    var bs := c.booked[d];
    SortedChain(bs);
    SortWithin(bs, c.opens[d], c.closes[d]);
    SweepMaximal(SortByStart(bs), c.opens[d], c.closes[d], day);
    forall t
      ensures SomeCovers(FreeSlots(c, day), t)
              <==> AtMost(c.opens[d], t) && Before(t, c.closes[d]) && NoneCovers(bs, t)
    {
      SweepCovers(SortByStart(bs), c.opens[d], c.closes[d], day, t);
      SortNoneCovers(bs, t);
    }
  }

  lemma SortNoneCovers(bs: seq<Booking>, t: Time)
    ensures NoneCovers(SortByStart(bs), t) <==> NoneCovers(bs, t)
  {
    var r := SortByStart(bs);
    forall i | 0 <= i < |r| ensures r[i] in bs {
      assert r[i] in r;
      SortMember(bs, r[i]);
    }
    forall i | 0 <= i < |bs| ensures bs[i] in r {
      assert bs[i] in bs;
      SortMember(bs, bs[i]);
    }
  }

  /** A non-empty slot inside opening hours can be booked iff it lies in one offered slot. */
  lemma AvailableIffOffered(c: Calendar, slot: TimeSlot)
    requires c.Shaped() && Regular(c, slot.day)
    requires slot.NonEmpty() && slot.Within(c.opens[Index(slot.day)], c.closes[Index(slot.day)])
    ensures IsAvailable(c, slot) <==> FitsOne(FreeSlots(c, slot.day), slot)
  {
    var d := Index(slot.day);
    var bs := c.booked[d];
    SortedChain(bs);
    SortWithin(bs, c.opens[d], c.closes[d]);
    SweepFits(SortByStart(bs), c.opens[d], c.closes[d], slot.day, slot);
    SortNoneConflicts(bs, slot);
  }

  // ---------- conservation ----------

  function FreeMinutes(gaps: seq<TimeSlot>): int {
    if gaps == [] then 0 else Duration(gaps[0]) + FreeMinutes(gaps[1..])
  }

  function BookedMinutes(bs: seq<Booking>): int {
    if bs == [] then 0 else Duration(bs[0].timeSlot) + BookedMinutes(bs[1..])
  }

  lemma {:induction false} FreeMinutesAppend(a: seq<TimeSlot>, b: seq<TimeSlot>)
    ensures FreeMinutes(a + b) == FreeMinutes(a) + FreeMinutes(b)
  {
    if a == [] {
      assert a + b == b;
    } else {
      FreeMinutesAppend(a[1..], b);
      assert (a + b)[1..] == a[1..] + b;
    }
  }

  lemma {:induction false} InsertMinutes(b: Booking, bs: seq<Booking>)
    ensures BookedMinutes(Insert(b, bs)) == Duration(b.timeSlot) + BookedMinutes(bs)
  {
    if bs != [] && Before(bs[0].timeSlot.Start(), b.timeSlot.Start()) {
      InsertMinutes(b, bs[1..]);
      assert Insert(b, bs)[1..] == Insert(b, bs[1..]);
    } else {
      assert ([b] + bs)[1..] == bs;
    }
  }

  lemma {:induction false} SortMinutes(bs: seq<Booking>)
    ensures BookedMinutes(SortByStart(bs)) == BookedMinutes(bs)
  {
    if bs != [] {
      SortMinutes(bs[1..]);
      InsertMinutes(bs[0], SortByStart(bs[1..]));
    }
  }

  lemma {:induction false} SweepMinutes(bs: seq<Booking>, cursor: Time, closing: Time, day: Day)
    requires Chain(bs) && AllNonEmpty(bs) && AllWithin(bs, cursor, closing) && AtMost(cursor, closing)
    ensures FreeMinutes(Sweep(bs, cursor, closing, day)) + BookedMinutes(bs) == Minutes(closing) - Minutes(cursor)
  {
    if bs != [] {
      var b := bs[0].timeSlot;
      ChainTail(bs);
      SweepMinutes(bs[1..], b.End(), closing, day);
      FreeMinutesAppend(GapIfAny(cursor, b.Start(), day), Sweep(bs[1..], b.End(), closing, day));
    }
  }

  /** Free minutes read from the query and booked minutes add up to the opening hours. */
  lemma MinutesConserved(c: Calendar, day: Day)
    requires c.Shaped() && Regular(c, day)
    ensures var d := Index(day);
            FreeMinutes(FreeSlots(c, day)) + BookedMinutes(c.booked[d])
            == Minutes(c.closes[d]) - Minutes(c.opens[d])
  {
    var d := Index(day);
    var bs := c.booked[d];
    SortedChain(bs);
    SortWithin(bs, c.opens[d], c.closes[d]);
    SweepMinutes(SortByStart(bs), c.opens[d], c.closes[d], day);
    SortMinutes(bs);
  }

  // ---------- why bookings must be non-empty ----------

  /** Everything the query offers can be booked as it stands. */
  predicate OffersHold(c: Calendar, day: Day)
    requires c.Shaped()
  {
    forall g <- FreeSlots(c, day) :: g.NonEmpty() && g.day == day && IsAvailable(c, g)
  }

  /** A day of proper bookings on which the slot is free. */
  predicate Welcomes(c: Calendar, slot: TimeSlot) {
    && c.Shaped() && AllNonEmpty(c.booked[Index(slot.day)]) && ConflictFree(c.booked[Index(slot.day)])
    && IsAvailable(c, slot)
  }

  function HourLater(t: Time, n: int): Time { Time(t.hour + n, t.minute) }

  /** One hour that a slot which is not non-empty does not conflict with. */
  function Neighbour(slot: TimeSlot): TimeSlot {
    if slot.Start() == slot.End() then Gap(slot.Start(), HourLater(slot.Start(), 1), slot.day)
    else Gap(HourLater(slot.Start(), -1), slot.Start(), slot.day)
  }

  /** Open all week until three hours after the slot starts; its neighbour is booked. */
  function Trap(slot: TimeSlot, id: string, user: string): (c: Calendar)
    ensures c.Shaped()
  {
    var o, e, bs := Neighbour(slot).Start(), HourLater(slot.Start(), 3), [Booking(id, user, Neighbour(slot))];
    Calendar([true, true, true, true, true, true, true], [o, o, o, o, o, o, o], [e, e, e, e, e, e, e],
             [bs, bs, bs, bs, bs, bs, bs])
  }

  /** The server accepts a slot that is empty or runs backwards, and where the neighbouring
      hour is booked the query then offers that hour again. */
  lemma EmptySlotMisleads(slot: TimeSlot, id: string, user: string)
    requires !slot.NonEmpty()
    ensures Welcomes(Trap(slot, id, user), slot)
    ensures var c' := Book(Trap(slot, id, user), id, user, slot);
            var offered := Gap(slot.End(), HourLater(slot.Start(), 3), slot.day);
            FreeSlots(c', slot.day) == [offered] && !IsAvailable(c', offered)
  {
    var c := Trap(slot, id, user);
    var a, b := Booking(id, user, Neighbour(slot)), Booking(id, user, slot);
    var c' := Book(c, id, user, slot);
    assert c'.booked[Index(slot.day)] == [a, b];
    SortPair(a, b);
    SweepPair(a, b, c.opens[Index(slot.day)], c.closes[Index(slot.day)], slot.day);
    assert [a, b][0].timeSlot.ConflictsWith(Gap(slot.End(), HourLater(slot.Start(), 3), slot.day));
  }

  lemma SortPair(a: Booking, b: Booking)
    requires !Before(b.timeSlot.Start(), a.timeSlot.Start())
    ensures SortByStart([a, b]) == [a, b]
  {
    assert [a, b][1..] == [b] && [b][1..] == [];
    assert SortByStart([b]) == [b];
  }

  lemma SweepPair(a: Booking, b: Booking, cursor: Time, closing: Time, day: Day)
    ensures Sweep([a, b], cursor, closing, day)
            == GapIfAny(cursor, a.timeSlot.Start(), day)
               + (GapIfAny(a.timeSlot.End(), b.timeSlot.Start(), day) + GapIfAny(b.timeSlot.End(), closing, day))
  {
    hide GapIfAny;
    assert [a, b][1..] == [b] && [b][1..] == [];
    assert Sweep([b], a.timeSlot.End(), closing, day)
        == GapIfAny(a.timeSlot.End(), b.timeSlot.Start(), day) + Sweep([], b.timeSlot.End(), closing, day);
    assert Sweep([a, b], cursor, closing, day)
        == GapIfAny(cursor, a.timeSlot.Start(), day) + Sweep([b], a.timeSlot.End(), closing, day);
  }

  /** So the hypothesis is exact: booking a slot leaves the query's offers bookable on every
      day of proper bookings iff the slot is non-empty. */
  lemma OffersHoldIff(slot: TimeSlot, id: string, user: string)
    ensures (forall c: Calendar :: Welcomes(c, slot) ==> OffersHold(Book(c, id, user, slot), slot.day))
            <==> slot.NonEmpty()
  {
    hide FreeSlots, IsAvailable;
    if slot.NonEmpty() {
      forall c: Calendar | Welcomes(c, slot) ensures OffersHold(Book(c, id, user, slot), slot.day) {
        StillProper(c, id, user, slot);
        OfferedSlotsAreAvailable(Book(c, id, user, slot), slot.day);
      }
    } else {
      EmptySlotMisleads(slot, id, user);
      var c' := Book(Trap(slot, id, user), id, user, slot);
      assert FreeSlots(c', slot.day)[0] in FreeSlots(c', slot.day);
      assert !OffersHold(c', slot.day);
    }
  }

  lemma StillProper(c: Calendar, id: string, user: string, slot: TimeSlot)
    requires Welcomes(c, slot) && slot.NonEmpty()
    ensures var bs := Book(c, id, user, slot).booked[Index(slot.day)]; AllNonEmpty(bs) && ConflictFree(bs)
  {
  }

  /** For instance, with 9:00 to 12:00 booked, a booking from 13:00 to 10:00 makes the query
      offer 10:00 to 17:00. */
  lemma BackwardBookingMisleads(id: string, user: string)
    ensures var morning := Booking(id, user, TimeSlot(9, 0, 12, 0, MONDAY));
            var backward := TimeSlot(13, 0, 10, 0, MONDAY);
            var c := Calendar(seq(7, i => true), seq(7, i => Time(8, 0)), seq(7, i => Time(17, 0)),
                              seq(7, i => [])[0 := [morning]]);
            && IsAvailable(c, backward)
            && FreeSlots(Book(c, id, user, backward), MONDAY)
               == [TimeSlot(8, 0, 9, 0, MONDAY), TimeSlot(12, 0, 13, 0, MONDAY), TimeSlot(10, 0, 17, 0, MONDAY)]
            && !IsAvailable(Book(c, id, user, backward), TimeSlot(10, 0, 17, 0, MONDAY))
  {
    var a, b := Booking(id, user, TimeSlot(9, 0, 12, 0, MONDAY)), Booking(id, user, TimeSlot(13, 0, 10, 0, MONDAY));
    SortPair(a, b);
    SweepPair(a, b, Time(8, 0), Time(17, 0), MONDAY);
    assert [a] + [b] == [a, b];
    assert [a, b][0].timeSlot.ConflictsWith(TimeSlot(10, 0, 17, 0, MONDAY));
  }
}
