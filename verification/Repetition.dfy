/** Updates are all or nothing, and which requests may be executed twice without harm, as
    happens under at-least-once semantics. */
module Repetition {
  import opened Basics
  import opened TimeSlots
  import opened Bookings
  import opened BookingInvariants
  import opened Messages
  import opened Text
  import opened Searching
  import opened ServerModel
  import opened Effects
  import opened Identifiers

  // ---------- the bookings of a facility, wherever they are kept ----------

  function Everything(days: seq<seq<Booking>>): (all: multiset<Booking>) {
    if days == [] then multiset{} else multiset(days[0]) + Everything(days[1..])
  }

  lemma {:induction false} EverythingUpdate(days: seq<seq<Booking>>, d: nat, bs: seq<Booking>)
    requires d < |days|
    ensures Everything(days[d := bs]) + multiset(days[d]) == Everything(days) + multiset(bs)
  {
    if d == 0 {
      assert days[0 := bs][1..] == days[1..];
    } else {
      assert days[d := bs][1..] == days[1..][d - 1 := bs];
      EverythingUpdate(days[1..], d - 1, bs);
      AddToBoth(multiset(days[0]), Everything(days[1..][d - 1 := bs]), multiset(days[d]),
                Everything(days[1..]), multiset(bs));
    }
  }

  lemma AddToBoth<T>(a: multiset<T>, r: multiset<T>, d: multiset<T>, s: multiset<T>, b: multiset<T>)
    requires r + d == s + b
    ensures a + r + d == a + s + b
  {
    forall t ensures (a + r + d)[t] == (a + s + b)[t] {
      assert (r + d)[t] == (s + b)[t];
    }
  }

  lemma Cancel<T>(e: multiset<T>, d: multiset<T>, f: multiset<T>, x: multiset<T>)
    requires e + d == f + (d + x)
    ensures e == f + x
  {
    forall t ensures e[t] == (f + x)[t] {
      assert (e + d)[t] == (f + (d + x))[t];
    }
  }

  lemma {:induction false} EverythingHolds(days: seq<seq<Booking>>, b: Booking)
    ensures b in Everything(days) <==> exists d :: 0 <= d < |days| && b in days[d]
  {
    if days != [] {
      EverythingHolds(days[1..], b);
      assert b in days[0] <==> b in multiset(days[0]);
      if b in Everything(days[1..]) {
        var d :| 0 <= d < |days| - 1 && b in days[1..][d];
        assert b in days[d + 1];
      }
      if exists d :: 0 < d < |days| && b in days[d] {
        var d :| 0 < d < |days| && b in days[d];
        assert b in days[1..][d - 1];
      }
    }
  }

  /** A user has a booking with this ID iff one of the bookings is exactly that. */
  lemma HasIff(c: Calendar, id: string, user: string)
    ensures Has(c, id, user) <==> exists b :: b in Everything(c.booked) && Owned(b, id, user)
  {
    var d := FindDay(c.booked, id, user, 0);
    if d < |c.booked| {
      var b := c.booked[d][Find(c.booked[d], id, user)];
      EverythingHolds(c.booked, b);
    } else {
      forall b | b in Everything(c.booked) ensures !Owned(b, id, user) {
        EverythingHolds(c.booked, b);
        var e :| 0 <= e < |c.booked| && b in c.booked[e];
        var k :| 0 <= k < |c.booked[e]| && c.booked[e][k] == b;
        assert k < Find(c.booked[e], id, user);
      }
    }
  }

  lemma BookAdds(c: Calendar, id: string, user: string, slot: TimeSlot)
    requires c.Shaped()
    ensures Everything(Book(c, id, user, slot).booked) == Everything(c.booked) + multiset{Booking(id, user, slot)}
  {
    var d := Index(slot.day);
    EverythingUpdate(c.booked, d, c.booked[d] + [Booking(id, user, slot)]);
    Cancel(Everything(Book(c, id, user, slot).booked), multiset(c.booked[d]), Everything(c.booked),
           multiset{Booking(id, user, slot)});
  }

  /** The booking a removal takes. */
  function Target(c: Calendar, id: string, user: string): (b: Booking)
    requires Has(c, id, user)
    ensures Owned(b, id, user)
  {
    var d := FindDay(c.booked, id, user, 0);
    c.booked[d][Find(c.booked[d], id, user)]
  }

  lemma RemoveTakes(c: Calendar, id: string, user: string)
    requires c.Shaped() && Has(c, id, user)
    ensures Everything(Remove(c, id, user).booked) + multiset{Target(c, id, user)} == Everything(c.booked)
  {
    hide Everything;
    var d := FindDay(c.booked, id, user, 0);
    var i := Find(c.booked[d], id, user);
    TakenOut(c.booked, d, i);
  }

  lemma TakenOut(days: seq<seq<Booking>>, d: nat, i: nat)
    requires d < |days| && i < |days[d]|
    ensures Everything(days[d := Without(days[d], i)]) + multiset{days[d][i]} == Everything(days)
  {
    hide Everything;
    var bs := days[d];
    EverythingUpdate(days, d, Without(bs, i));
    WithoutContents(bs, i);
    Swap(Everything(days[d := Without(bs, i)]), multiset(Without(bs, i)), multiset{bs[i]}, Everything(days));
  }

  lemma WithoutContents(bs: seq<Booking>, i: nat)
    requires i < |bs|
    ensures multiset(bs) == multiset(Without(bs, i)) + multiset{bs[i]}
  {
    assert bs == bs[..i] + [bs[i]] + bs[i + 1..];
  }

  lemma Swap<T>(e: multiset<T>, w: multiset<T>, x: multiset<T>, f: multiset<T>)
    requires e + (w + x) == f + w
    ensures e + x == f
  {
    forall t ensures (e + x)[t] == f[t] {
      assert (e + (w + x))[t] == (f + w)[t];
    }
  }

  // ---------- updates ----------

  /** Either nothing changes, or exactly the caller's booking is replaced; with no such
      booking the new one is simply added. */
  lemma UpdateAllOrNothing(core: Core, m: RequestMessage, b: BookingDetails, client: Endpoint, env: Env)
    requires core.Shaped()
    ensures var r := UpdateBooking(core, m, b, client, env);
            var i := FacilityIndex(core.facilities, b.facilityName);
            var user, new_ := UserInfo(client), Booking(env.uuid, UserInfo(client), b.slot);
            if i == |core.facilities| || !IsAvailable(core.facilities[i].calendar, b.slot) then
              r.core == core && r.response.data.value[..13] == "status:ERROR\n"
            else
              var c, c' := core.facilities[i].calendar, r.core.facilities[i].calendar;
              && r.core == SetCalendar(core, i, c')
              && (Has(c, b.previous, user) ==>
                    Everything(c'.booked) + multiset{Target(c, b.previous, user)}
                    == Everything(c.booked) + multiset{new_})
              && (!Has(c, b.previous, user) ==> Everything(c'.booked) == Everything(c.booked) + multiset{new_})
  {
    hide UpdatedText, Has, Book, Remove, Everything, UserInfo, Target, IsAvailable;
    var i := FacilityIndex(core.facilities, b.facilityName);
    if i < |core.facilities| {
      var c, user := core.facilities[i].calendar, UserInfo(client);
      BookAdds(Remove(c, b.previous, user), env.uuid, user, b.slot);
      if Has(c, b.previous, user) {
        RemoveTakes(c, b.previous, user);
      } else {
        RemoveNothing(c, b.previous, user);
      }
    }
  }

  lemma RemoveNothing(c: Calendar, id: string, user: string)
    requires c.Shaped() && !Has(c, id, user)
    ensures Remove(c, id, user) == c
  {
  }

  /** The availability check precedes the removal, so a booking is in its own way: it cannot
      be moved on its own day by less than its duration if it resists small moves. */
  lemma SmallMoveRefused(core: Core, m: RequestMessage, b: BookingDetails, client: Endpoint, env: Env,
                         held: Booking, offset: int)
    requires core.Shaped()
    requires var i := FacilityIndex(core.facilities, b.facilityName);
             i < |core.facilities| && held in core.facilities[i].calendar.booked[Index(held.timeSlot.day)]
    requires InnerEndsInOrder(held.timeSlot) && b.slot == ShiftedSlot(held.timeSlot, offset)
    requires -Duration(held.timeSlot) < offset < Duration(held.timeSlot)
    ensures var r := UpdateBooking(core, m, b, client, env);
            r.core == core && r.response.data == Some(ErrorText("Facility not available at the requested time"))
  {
    hide Book, Remove, UpdatedText, UserInfo, Has, InnerEndsInOrder, ShiftedSlot;
    SmallMovesIff(held.timeSlot);
    var c := core.facilities[FacilityIndex(core.facilities, b.facilityName)].calendar;
    var d := Index(held.timeSlot.day);
    var k :| 0 <= k < |c.booked[d]| && c.booked[d][k] == held;
    assert c.booked[d][k].timeSlot.ConflictsWith(b.slot);
  }

  /** The condition is exact: a booking that is alone on its day blocks every small move iff
      the minute before its end and the minute after its start lie between its ends. */
  lemma SmallMovesRefusedIff(c: Calendar, held: Booking)
    requires c.Shaped() && Duration(held.timeSlot) > 0
    requires c.days[Index(held.timeSlot.day)] && c.booked[Index(held.timeSlot.day)] == [held]
    ensures (forall offset :: -Duration(held.timeSlot) < offset < Duration(held.timeSlot) ==>
                                !IsAvailable(c, ShiftedSlot(held.timeSlot, offset)))
            <==> InnerEndsInOrder(held.timeSlot)
  {
    hide InnerEndsInOrder, ShiftedSlot;
    SmallMovesIff(held.timeSlot);
    forall offset
      ensures IsAvailable(c, ShiftedSlot(held.timeSlot, offset))
              <==> !held.timeSlot.ConflictsWith(ShiftedSlot(held.timeSlot, offset))
    {
      assert c.booked[Index(held.timeSlot.day)][0] == held;
    }
  }

  // ---------- executing a request again ----------

  /** The request would change no facility, whatever the platform supplies. */
  ghost predicate Settled(core: Core, m: RequestMessage, client: Endpoint)
    requires core.Shaped()
  {
    forall env: Env :: Guarded(core.facilities, EffectOf(core, m, client, env))
                       && Apply(core.facilities, EffectOf(core, m, client, env)) == core.facilities
  }

  /** Requests about bookings, as opposed to ratings. */
  predicate AboutBookings(m: RequestMessage) {
    FromInt(m.requestType) == UPDATE ==>
      m.data.Some? && JavaSplit(m.data.value) != [] && JavaSplit(m.data.value)[0] == "booking"
  }

  lemma RequestedStable(m: RequestMessage, env: Env, env': Env)
    ensures Requested(m, env) == Requested(m, env')
  {
    hide JavaSplit, ParseBooking, ParseDetails;
  }

  lemma {:induction false} IndexStable(fs: seq<Facility>, gs: seq<Facility>, name: string)
    requires |fs| == |gs| && forall i :: 0 <= i < |fs| ==> fs[i].name == gs[i].name
    ensures FacilityIndex(fs, name) == FacilityIndex(gs, name)
  {
    var i, j := FacilityIndex(fs, name), FacilityIndex(gs, name);
    assert !(i < j) && !(j < i);
  }

  lemma BlocksItself(c: Calendar, id: string, user: string, slot: TimeSlot)
    requires c.Shaped()
    ensures slot.NonEmpty() ==> !IsAvailable(Book(c, id, user, slot), slot)
    ensures !slot.NonEmpty() && IsAvailable(c, slot) ==> IsAvailable(Book(c, id, user, slot), slot)
  {
    var d := Index(slot.day);
    var bs := c.booked[d] + [Booking(id, user, slot)];
    assert bs[|c.booked[d]|].timeSlot == slot;
  }

  /** After one execution of a booking, update or delete request, executing it again changes
      no facility. */
  lemma OnceSettles(core: Core, m: RequestMessage, client: Endpoint, env: Env, core': Core)
    requires core.Shaped() && core'.Shaped() && UniqueIDs(core.facilities) && AboutBookings(m)
    requires Requested(m, env).Some? ==> Requested(m, env).value.slot.NonEmpty()
    requires Guarded(core.facilities, EffectOf(core, m, client, env))
    requires core'.facilities == Apply(core.facilities, EffectOf(core, m, client, env))
    ensures Settled(core', m, client)
  {
    hide UniqueIDs, JavaSplit, Requested, IsAvailable, Book, Remove;
    forall env': Env
      ensures Guarded(core'.facilities, EffectOf(core', m, client, env'))
      ensures Apply(core'.facilities, EffectOf(core', m, client, env')) == core'.facilities
    {
      RequestedStable(m, env, env');
      if Requested(m, env).Some? {
        SecondBooking(core, m, client, env, core', env');
      } else {
        SecondRemoval(core, m, client, env, core', env');
      }
    }
  }

  lemma SecondBooking(core: Core, m: RequestMessage, client: Endpoint, env: Env, core': Core, env': Env)
    requires core.Shaped() && core'.Shaped()
    requires Requested(m, env).Some? && Requested(m, env') == Requested(m, env)
             && Requested(m, env).value.slot.NonEmpty()
    requires Guarded(core.facilities, EffectOf(core, m, client, env))
    requires core'.facilities == Apply(core.facilities, EffectOf(core, m, client, env))
    ensures EffectOf(core', m, client, env') == NoEffect
  {
    hide Requested, IsAvailable, Book, Remove, UserInfo;
    var b, fs := Requested(m, env).value, core.facilities;
    IndexStable(fs, core'.facilities, b.facilityName);
    var i := FacilityIndex(fs, b.facilityName);
    if i < |fs| && IsAvailable(fs[i].calendar, b.slot) {
      BlocksItself(fs[i].calendar, env.uuid, UserInfo(client), b.slot);
      BlocksItself(Remove(fs[i].calendar, b.previous, UserInfo(client)), env.uuid, UserInfo(client), b.slot);
    }
  }

  lemma SecondRemoval(core: Core, m: RequestMessage, client: Endpoint, env: Env, core': Core, env': Env)
    requires core.Shaped() && core'.Shaped() && UniqueIDs(core.facilities) && AboutBookings(m)
    requires Requested(m, env).None? && Requested(m, env').None?
    requires Guarded(core.facilities, EffectOf(core, m, client, env))
    requires core'.facilities == Apply(core.facilities, EffectOf(core, m, client, env))
    ensures Guarded(core'.facilities, EffectOf(core', m, client, env'))
    ensures Apply(core'.facilities, EffectOf(core', m, client, env')) == core'.facilities
  {
    hide UniqueIDs, JavaSplit, Requested, IsAvailable, Remove, UserInfo, Has;
    if m.data.Some? {
      var parts, fs, user := JavaSplit(m.data.value), core.facilities, UserInfo(client);
      if FromInt(m.requestType) == DELETE && |parts| >= 2 {
        IndexStable(fs, core'.facilities, parts[1]);
        var i := FacilityIndex(fs, parts[1]);
        if i < |fs| {
          RemoveForgets(fs, i, parts[0], user);
          RemoveNothing(Remove(fs[i].calendar, parts[0], user), parts[0], user);
        }
      }
    }
  }

  /** The state after a request has been executed once for each of envs. */
  function Repeat(core: Core, m: RequestMessage, client: Endpoint, envs: seq<Env>): (core': Core)
    requires core.Shaped()
    ensures core'.Shaped()
    decreases envs
  {
    hide Process;
    if envs == [] then core
    else
      match Process(core, m, client, envs[0])
      case Crashed => core
      case Processed(core1, _, _) => Repeat(core1, m, client, envs[1..])
  }

  lemma ProcessApplies(core: Core, m: RequestMessage, client: Endpoint, env: Env)
    requires core.Shaped()
    ensures Process(core, m, client, env).Processed? ==>
              Guarded(core.facilities, EffectOf(core, m, client, env))
              && Process(core, m, client, env).core.facilities == Apply(core.facilities, EffectOf(core, m, client, env))
    ensures Process(core, m, client, env).Crashed? ==> FromInt(m.requestType) == READ
  {
    hide Apply, EffectOf, AvailabilityText, Contains, NoticesFor, Unexpired, ExecuteWrite, ExecuteUpdate, ExecuteDelete,
         ExecuteMonitor;
    if Execute(core, m, client, env).Executed? {
      ExecuteApplies(core, m, client, env);
    }
  }

  lemma {:induction false} SettledStays(core: Core, m: RequestMessage, client: Endpoint, envs: seq<Env>)
    requires core.Shaped() && Settled(core, m, client)
    ensures Repeat(core, m, client, envs).facilities == core.facilities
    decreases envs
  {
    hide Process, Apply, EffectOf;
    if envs != [] {
      ProcessApplies(core, m, client, envs[0]);
      match Process(core, m, client, envs[0])
      case Crashed =>
      case Processed(core1, _, _) =>
        SameFacilities(core, core1, m, client);
        SettledStays(core1, m, client, envs[1..]);
    }
  }

  lemma SameFacilities(core: Core, core1: Core, m: RequestMessage, client: Endpoint)
    requires core.Shaped() && core1.Shaped() && core.facilities == core1.facilities && Settled(core, m, client)
    ensures Settled(core1, m, client)
  {
    hide IsAvailable, Apply, Requested, JavaSplit;
    forall env: Env ensures EffectOf(core1, m, client, env) == EffectOf(core, m, client, env) {
    }
  }

  /** Executing a booking, update or delete request over and over leaves the facilities as
      executing it once does. */
  lemma RepeatingBookingsIsHarmless(core: Core, m: RequestMessage, client: Endpoint, env: Env, more: seq<Env>)
    requires core.Shaped() && UniqueIDs(core.facilities) && AboutBookings(m)
    requires Requested(m, env).Some? ==> Requested(m, env).value.slot.NonEmpty()
    ensures Repeat(core, m, client, [env] + more).facilities == Repeat(core, m, client, [env]).facilities
  {
    hide Process, Apply, EffectOf, UniqueIDs, Requested, AboutBookings, Settled, Guarded;
    ProcessApplies(core, m, client, env);
    assert ([env] + more)[1..] == more && [env][1..] == [];
    match Process(core, m, client, env)
    case Crashed =>
    case Processed(core1, _, _) =>
      OnceSettles(core, m, client, env, core1);
      SettledStays(core1, m, client, more);
  }

  /** For an accepted booking request the condition is exact: a second execution leaves the
      facilities alone iff the slot is non-empty. */
  lemma SecondBookingIff(core: Core, m: RequestMessage, client: Endpoint, env: Env, env': Env)
    requires core.Shaped() && FromInt(m.requestType) == WRITE && EffectOf(core, m, client, env).Booked?
    ensures Repeat(core, m, client, [env, env']).facilities == Repeat(core, m, client, [env]).facilities
            <==> Requested(m, env).value.slot.NonEmpty()
  {
    hide Process, Requested, IsAvailable, UserInfo;
    ProcessApplies(core, m, client, env);
    RequestedStable(m, env, env');
    var core1 := Process(core, m, client, env).core;
    ProcessApplies(core1, m, client, env');
    assert [env, env'][1..] == [env'] && [env'][1..] == [] && [env][1..] == [];
    var b, fs := Requested(m, env).value, core.facilities;
    var i := FacilityIndex(fs, b.facilityName);
    IndexStable(fs, core1.facilities, b.facilityName);
    BlocksItself(fs[i].calendar, env.uuid, UserInfo(client), b.slot);
    assert EffectOf(core1, m, client, env')
        == if b.slot.NonEmpty() then NoEffect else Booked(i, env'.uuid, UserInfo(client), b.slot);
    var core2 := Process(core1, m, client, env').core;
    assert Repeat(core, m, client, [env]) == core1;
    assert Repeat(core1, m, client, [env']) == core2;
    assert Repeat(core, m, client, [env, env']) == core2;
    if !b.slot.NonEmpty() {
      var d := Index(b.slot.day);
      assert |core2.facilities[i].calendar.booked[d]| == |core1.facilities[i].calendar.booked[d]| + 1;
    }
  }

  /** The same for an accepted update, of a booking with an ID of its own. */
  lemma SecondUpdateIff(core: Core, m: RequestMessage, client: Endpoint, env: Env, env': Env)
    requires core.Shaped() && UniqueIDs(core.facilities) && EffectOf(core, m, client, env).Moved?
    requires EffectOf(core, m, client, env).previous != env.uuid
    ensures Repeat(core, m, client, [env, env']).facilities == Repeat(core, m, client, [env]).facilities
            <==> Requested(m, env).value.slot.NonEmpty()
  {
    hide Process, Requested, IsAvailable, UserInfo, Book, Remove, Has, Everything, UniqueIDs;
    MovedByUpdate(core, m, client, env);
    ProcessApplies(core, m, client, env);
    RequestedStable(m, env, env');
    var core1 := Process(core, m, client, env).core;
    ProcessApplies(core1, m, client, env');
    assert [env, env'][1..] == [env'] && [env'][1..] == [] && [env][1..] == [];
    var core2 := Process(core1, m, client, env').core;
    assert Repeat(core, m, client, [env]) == core1;
    assert Repeat(core1, m, client, [env']) == core2;
    assert Repeat(core, m, client, [env, env']) == core2;
    var b, fs, user := Requested(m, env).value, core.facilities, UserInfo(client);
    var i := FacilityIndex(fs, b.facilityName);
    IndexStable(fs, core1.facilities, b.facilityName);
    var c := Remove(fs[i].calendar, b.previous, user);
    RemoveKeepsAvailable(fs[i].calendar, b.previous, user, b.slot);
    BlocksItself(c, env.uuid, user, b.slot);
    assert core1.facilities[i].calendar == Book(c, env.uuid, user, b.slot);
    assert EffectOf(core1, m, client, env')
        == if b.slot.NonEmpty() then NoEffect else Moved(i, b.previous, env'.uuid, user, b.slot);
    if !b.slot.NonEmpty() {
      RemoveForgets(fs, i, b.previous, user);
      BookedElse(c, env.uuid, b.previous, user, b.slot);
      RemoveNothing(Book(c, env.uuid, user, b.slot), b.previous, user);
      BookAdds(Book(c, env.uuid, user, b.slot), env'.uuid, user, b.slot);
      assert |Everything(core2.facilities[i].calendar.booked)| == |Everything(core1.facilities[i].calendar.booked)| + 1;
    }
  }

  lemma MovedByUpdate(core: Core, m: RequestMessage, client: Endpoint, env: Env)
    requires core.Shaped() && EffectOf(core, m, client, env).Moved?
    ensures FromInt(m.requestType) == UPDATE && Requested(m, env).Some?
  {
    hide JavaSplit, ParseBooking, ParseUpdate, IsAvailable, UserInfo;
  }

  /** A new booking under another ID does not make the old ID known again. */
  lemma BookedElse(c: Calendar, id: string, previous: string, user: string, slot: TimeSlot)
    requires c.Shaped() && id != previous && !Has(c, previous, user)
    ensures !Has(Book(c, id, user, slot), previous, user)
  {
    hide Has, Everything, Book;
    HasIff(c, previous, user);
    HasIff(Book(c, id, user, slot), previous, user);
    BookAdds(c, id, user, slot);
  }

  // ---------- requests that are not idempotent ----------

  predicate ValidRating(core: Core, m: RequestMessage, env: Env) {
    && FromInt(m.requestType) == UPDATE && m.data.Some? && env.parsedRating.Some?
    && var parts := JavaSplit(m.data.value);
       |parts| >= 3 && parts[0] == "rating" && FacilityIndex(core.facilities, parts[1]) < |core.facilities|
  }

  lemma RateOnce(core: Core, m: RequestMessage, client: Endpoint, env: Env)
    requires core.Shaped() && ValidRating(core, m, env)
    ensures var i := FacilityIndex(core.facilities, JavaSplit(m.data.value)[1]);
            var core' := Process(core, m, client, env).core;
            && Process(core, m, client, env).Processed?
            && core'.facilities
               == core.facilities[i := core.facilities[i].(rating :=
                   AddRating(core.facilities[i].rating, env.parsedRating.value))]
  {
    hide RatedText, AddRating, JavaSplit, UserInfo, AvailabilityText, NoticesFor, Unexpired, Contains, ParseUpdate,
         ExecuteRead, ExecuteWrite, ExecuteDelete, ExecuteMonitor;
  }

  /** Each repetition of a valid rating is counted again. */
  lemma {:induction false} RatingsPile(core: Core, m: RequestMessage, client: Endpoint, envs: seq<Env>, i: nat)
    requires core.Shaped() && m.data.Some? && |JavaSplit(m.data.value)| >= 3
    requires i == FacilityIndex(core.facilities, JavaSplit(m.data.value)[1]) < |core.facilities|
    requires forall env <- envs :: ValidRating(core, m, env)
    ensures i < |Repeat(core, m, client, envs).facilities|
    ensures Repeat(core, m, client, envs).facilities[i].rating.count == core.facilities[i].rating.count + |envs|
    decreases envs
  {
    hide Process, JavaSplit;
    if envs != [] {
      assert envs[0] in envs;
      RateOnce(core, m, client, envs[0]);
      var core1 := Process(core, m, client, envs[0]).core;
      IndexStable(core.facilities, core1.facilities, JavaSplit(m.data.value)[1]);
      forall env | env in envs[1..] ensures ValidRating(core1, m, env) {
        assert env in envs;
        assert ValidRating(core, m, env);
      }
      RatingsPile(core1, m, client, envs[1..], i);
    }
  }

  predicate ValidRegistration(core: Core, m: RequestMessage) {
    && FromInt(m.requestType) == MONITOR && m.data.Some?
    && var parts := JavaSplit(m.data.value);
       |parts| >= 3 && parts[0] == "register" && ParseInt(parts[2]).Some?
       && FacilityIndex(core.facilities, parts[1]) < |core.facilities|
  }

  lemma RegisterOnce(core: Core, m: RequestMessage, client: Endpoint, env: Env)
    requires core.Shaped() && ValidRegistration(core, m)
    ensures Process(core, m, client, env).Processed?
    ensures Process(core, m, client, env).core
            == core.(monitors := core.monitors + [Monitor(JavaSplit(m.data.value)[1], m.requestID, client, env.now,
                                                          ParseInt(JavaSplit(m.data.value)[2]).value)])
  {
    hide JavaSplit, ParseInt, AvailabilityText, NoticesFor, Unexpired, Contains, ExecuteRead, ExecuteWrite,
         ExecuteDelete, ExecuteUpdate;
  }

  /** Each repetition of a valid registration adds one more monitor. */
  lemma {:induction false} RegistrationsPile(core: Core, m: RequestMessage, client: Endpoint, envs: seq<Env>)
    requires core.Shaped() && ValidRegistration(core, m)
    ensures Repeat(core, m, client, envs).facilities == core.facilities
    ensures |Repeat(core, m, client, envs).monitors| == |core.monitors| + |envs|
    decreases envs
  {
    hide Process, JavaSplit, ParseInt;
    if envs != [] {
      RegisterOnce(core, m, client, envs[0]);
      RegistrationsPile(Process(core, m, client, envs[0]).core, m, client, envs[1..]);
    }
  }
}
