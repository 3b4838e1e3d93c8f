/** Confirmation IDs are unique across all facilities in every reachable state, as long as
    the platform supplies fresh identifiers. */
module Identifiers {
  import opened TimeSlots
  import opened Bookings
  import opened ServerModel
  import opened Effects
  import opened Runs

  /** Where a booking is kept: facility, day of the week, place in the day's list. */
  datatype Place = Place(i: nat, d: nat, k: nat)

  predicate Occupied(fs: seq<Facility>, p: Place) {
    p.i < |fs| && p.d < |fs[p.i].calendar.booked| && p.k < |fs[p.i].calendar.booked[p.d]|
  }

  function IDAt(fs: seq<Facility>, p: Place): string
    requires Occupied(fs, p)
  {
    fs[p.i].calendar.booked[p.d][p.k].confirmationID
  }

  ghost predicate UniqueIDs(fs: seq<Facility>) {
    forall p, q :: Occupied(fs, p) && Occupied(fs, q) && IDAt(fs, p) == IDAt(fs, q) ==> p == q
  }

  /** No booking carries this ID. */
  ghost predicate Unused(fs: seq<Facility>, id: string) {
    forall p :: Occupied(fs, p) ==> IDAt(fs, p) != id
  }

  /** IDs in use afterwards were in use before or are among the added ones. */
  ghost predicate NothingNew(fs: seq<Facility>, fs': seq<Facility>, added: set<string>) {
    forall p :: Occupied(fs', p) ==> IDAt(fs', p) in added || !Unused(fs, IDAt(fs', p))
  }

  function AddedBy(e: Effect): set<string> {
    if e.Booked? || e.Moved? then {e.id} else {}
  }

  function WithCalendar(fs: seq<Facility>, i: nat, c: Calendar): seq<Facility>
    requires i < |fs|
  {
    fs[i := fs[i].(calendar := c)]
  }

  lemma BookUnique(fs: seq<Facility>, i: nat, id: string, user: string, slot: TimeSlot)
    requires i < |fs| && fs[i].calendar.Shaped() && UniqueIDs(fs) && Unused(fs, id)
    ensures var fs' := WithCalendar(fs, i, Book(fs[i].calendar, id, user, slot));
            UniqueIDs(fs') && NothingNew(fs, fs', {id})
  {
    var fs' := WithCalendar(fs, i, Book(fs[i].calendar, id, user, slot));
    var d := Index(slot.day);
    var added := Place(i, d, |fs[i].calendar.booked[d]|);
    assert Occupied(fs', added) && IDAt(fs', added) == id;
    forall p | Occupied(fs', p) && p != added
      ensures Occupied(fs, p) && IDAt(fs', p) == IDAt(fs, p)
    {
    }
  }

  /** Where a booking was before the one at gone was taken out. */
  function Former(p: Place, gone: Place): Place {
    if p.i == gone.i && p.d == gone.d && gone.k <= p.k then Place(p.i, p.d, p.k + 1) else p
  }

  lemma RemoveUnique(fs: seq<Facility>, i: nat, id: string, user: string)
    requires i < |fs| && fs[i].calendar.Shaped() && UniqueIDs(fs)
    ensures var fs' := WithCalendar(fs, i, Remove(fs[i].calendar, id, user));
            UniqueIDs(fs') && (forall x :: Unused(fs, x) ==> Unused(fs', x))
  {
    var c := fs[i].calendar;
    var fs' := WithCalendar(fs, i, Remove(c, id, user));
    var d := FindDay(c.booked, id, user, 0);
    if d == |c.booked| {
      assert fs' == fs;
    } else {
      var gone := Place(i, d, Find(c.booked[d], id, user));
      forall p | Occupied(fs', p)
        ensures Occupied(fs, Former(p, gone)) && IDAt(fs, Former(p, gone)) == IDAt(fs', p)
      {
      }
    }
  }

  /** Once the booking with a unique ID is gone, no booking of that facility has the ID. */
  lemma RemoveForgets(fs: seq<Facility>, i: nat, id: string, user: string)
    requires i < |fs| && fs[i].calendar.Shaped() && UniqueIDs(fs)
    ensures !Has(Remove(fs[i].calendar, id, user), id, user)
  {
    var c := fs[i].calendar;
    var c' := Remove(c, id, user);
    var fs' := WithCalendar(fs, i, c');
    var d := FindDay(c.booked, id, user, 0);
    if d < |c.booked| {
      var gone := Place(i, d, Find(c.booked[d], id, user));
      assert Occupied(fs, gone) && IDAt(fs, gone) == id;
      forall p | Occupied(fs', p) ensures IDAt(fs', p) != id {
        assert Occupied(fs, Former(p, gone));
        assert IDAt(fs, Former(p, gone)) == IDAt(fs', p) && Former(p, gone) != gone;
      }
      var e := FindDay(c'.booked, id, user, 0);
      assert e < |c'.booked| ==> Occupied(fs', Place(i, e, Find(c'.booked[e], id, user)));
    }
  }

  lemma ApplyUnique(fs: seq<Facility>, e: Effect)
    requires UniqueIDs(fs) && Guarded(fs, e)
    requires e.Booked? || e.Moved? ==> Unused(fs, e.id)
    ensures UniqueIDs(Apply(fs, e))
    ensures NothingNew(fs, Apply(fs, e), AddedBy(e))
  {
    match e
    case Booked(i, id, user, slot) => BookUnique(fs, i, id, user, slot);
    case Moved(i, previous, id, user, slot) =>
      RemoveUnique(fs, i, previous, user);
      var fs1 := WithCalendar(fs, i, Remove(fs[i].calendar, previous, user));
      BookUnique(fs1, i, id, user, slot);
      assert Apply(fs, e) == WithCalendar(fs1, i, Book(fs1[i].calendar, id, user, slot));
    case Removed(i, previous, user) => RemoveUnique(fs, i, previous, user);
    case Rated(i, rating) =>
      forall p | Occupied(Apply(fs, e), p) ensures Occupied(fs, p) && IDAt(Apply(fs, e), p) == IDAt(fs, p) {
      }
    case NoEffect =>
  }

  /** The identifiers handed out during the run differ from each other and from all in use. */
  ghost predicate FreshSupply(fs: seq<Facility>, arrivals: seq<Arrival>) {
    && (forall i, j :: 0 <= i < j < |arrivals| ==> arrivals[i].env.uuid != arrivals[j].env.uuid)
    && (forall i :: 0 <= i < |arrivals| ==> Unused(fs, arrivals[i].env.uuid))
  }

  lemma StepUnique(mach: Machine, checkHistory: bool, a: Arrival)
    requires mach.st.core.Shaped() && UniqueIDs(mach.st.core.facilities) && Unused(mach.st.core.facilities, a.env.uuid)
    ensures var fs' := Step(mach, checkHistory, a).st.core.facilities;
            && UniqueIDs(fs')
            && forall x :: Unused(mach.st.core.facilities, x) && x != a.env.uuid ==> Unused(fs', x)
  {
    hide Step, Execute, Process, UniqueIDs, Apply, Requested, IsAvailable, Unused, Occupied, NothingNew;
    StepCore(mach, checkHistory, a);
    if Executes(mach, checkHistory, a) {
      ProcessFacilities(mach.st.core, a.m.value, a.client, a.env);
      if Execute(mach.st.core, a.m.value, a.client, a.env).Executed? {
        ExecuteApplies(mach.st.core, a.m.value, a.client, a.env);
        var e := EffectOf(mach.st.core, a.m.value, a.client, a.env);
        ApplyUnique(mach.st.core.facilities, e);
        StaysUnused(mach.st.core.facilities, Apply(mach.st.core.facilities, e), AddedBy(e));
      }
    }
  }

  lemma StaysUnused(fs: seq<Facility>, fs': seq<Facility>, added: set<string>)
    requires NothingNew(fs, fs', added)
    ensures forall x :: Unused(fs, x) && x !in added ==> Unused(fs', x)
  {
  }

  /** No two bookings anywhere ever share a confirmation ID. */
  lemma {:induction false} ReachableUnique(mach: Machine, checkHistory: bool, arrivals: seq<Arrival>)
    requires mach.st.core.Shaped() && UniqueIDs(mach.st.core.facilities)
    requires FreshSupply(mach.st.core.facilities, arrivals)
    ensures UniqueIDs(Run(mach, checkHistory, arrivals).st.core.facilities)
    decreases arrivals
  {
    hide Step, UniqueIDs, Unused;
    if arrivals != [] {
      var a := arrivals[0];
      assert a in arrivals;
      StepUnique(mach, checkHistory, a);
      var next := Step(mach, checkHistory, a);
      assert forall i :: 0 <= i < |arrivals| - 1 ==> arrivals[1..][i] == arrivals[i + 1] && arrivals[i + 1] in arrivals;
      ReachableUnique(next, checkHistory, arrivals[1..]);
    }
  }
}
