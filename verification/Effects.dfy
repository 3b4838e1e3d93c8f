/** How a request changes the facilities: nothing, one guarded booking, one removal, a
    removal followed by a guarded booking, or one rating. */
module Effects {
  import opened Basics
  import opened TimeSlots
  import opened Bookings
  import opened Messages
  import opened Text
  import opened ServerModel

  datatype Effect =
    | NoEffect
    | Booked(i: nat, id: string, user: string, slot: TimeSlot)
    | Moved(i: nat, previous: string, id: string, user: string, slot: TimeSlot)
    | Removed(i: nat, previous: string, user: string)
    | Rated(i: nat, rating: real)

  /** An effect that makes sense for these facilities. A booking is only ever made into a
      calendar that has just been found free. */
  predicate Guarded(fs: seq<Facility>, e: Effect) {
    match e
    case NoEffect => true
    case Booked(i, _, _, slot) => i < |fs| && fs[i].calendar.Shaped() && IsAvailable(fs[i].calendar, slot)
    case Moved(i, _, _, _, slot) => i < |fs| && fs[i].calendar.Shaped() && IsAvailable(fs[i].calendar, slot)
    case Removed(i, _, _) => i < |fs| && fs[i].calendar.Shaped()
    case Rated(i, _) => i < |fs|
  }

  function Apply(fs: seq<Facility>, e: Effect): (fs': seq<Facility>)
    requires Guarded(fs, e)
    ensures |fs'| == |fs|
  {
    match e
    case NoEffect => fs
    case Booked(i, id, user, slot) => fs[i := fs[i].(calendar := Book(fs[i].calendar, id, user, slot))]
    case Moved(i, previous, id, user, slot) =>
      fs[i := fs[i].(calendar := Book(Remove(fs[i].calendar, previous, user), id, user, slot))]
    case Removed(i, previous, user) => fs[i := fs[i].(calendar := Remove(fs[i].calendar, previous, user))]
    case Rated(i, rating) => fs[i := fs[i].(rating := AddRating(fs[i].rating, rating))]
  }

  /** The booking an update or write asks for, if its text parses. */
  function Requested(m: RequestMessage, env: Env): (r: Option<BookingDetails>) {
    if m.data.None? then None
    else if FromInt(m.requestType) == WRITE then ParseBooking(m.data.value)
    else if FromInt(m.requestType) == UPDATE && JavaSplit(m.data.value) != []
            && JavaSplit(m.data.value)[0] == "booking" && ParseUpdate(m.data.value, env).GoodUpdate?
    then Some(ParseUpdate(m.data.value, env).details)
    else None
  }

  function EffectOf(core: Core, m: RequestMessage, client: Endpoint, env: Env): (e: Effect)
    requires core.Shaped()
  {
    var fs, user := core.facilities, UserInfo(client);
    match Requested(m, env)
    case Some(b) =>
      var i := FacilityIndex(fs, b.facilityName);
      if i == |fs| || !IsAvailable(fs[i].calendar, b.slot) then NoEffect
      else if FromInt(m.requestType) == WRITE then Booked(i, env.uuid, user, b.slot)
      else Moved(i, b.previous, env.uuid, user, b.slot)
    case None =>
      if m.data.None? then NoEffect
      else
        var parts := JavaSplit(m.data.value);
        if FromInt(m.requestType) == DELETE && |parts| >= 2 && FacilityIndex(fs, parts[1]) < |fs| then
          Removed(FacilityIndex(fs, parts[1]), parts[0], user)
        else if FromInt(m.requestType) == UPDATE && |parts| >= 3 && parts[0] == "rating"
                && env.parsedRating.Some? && FacilityIndex(fs, parts[1]) < |fs| then
          Rated(FacilityIndex(fs, parts[1]), env.parsedRating.value)
        else NoEffect
  }

  /** Executing any request applies one guarded effect to the facilities. */
  lemma ExecuteApplies(core: Core, m: RequestMessage, client: Endpoint, env: Env)
    requires core.Shaped() && Execute(core, m, client, env).Executed?
    ensures Guarded(core.facilities, EffectOf(core, m, client, env))
    ensures Execute(core, m, client, env).core.facilities == Apply(core.facilities, EffectOf(core, m, client, env))
  {
    hide AvailabilityText, IsAvailable, ParseBooking, ParseUpdate, JavaSplit, Book, Remove, BookedText, UpdatedText,
         RatedText, AddRating, BookingAnswer, RatingAnswer, FacilityNames, WantedDays, Has, UserInfo;
    match FromInt(m.requestType)
    case WRITE => WriteApplies(core, m, client, env);
    case UPDATE => UpdateApplies(core, m, client, env);
    case _ =>
  }

  lemma WriteApplies(core: Core, m: RequestMessage, client: Endpoint, env: Env)
    requires core.Shaped() && FromInt(m.requestType) == WRITE
    ensures Guarded(core.facilities, EffectOf(core, m, client, env))
    ensures ExecuteWrite(core, m, client, env).core.facilities == Apply(core.facilities, EffectOf(core, m, client, env))
  {
    hide IsAvailable, ParseBooking, Book, BookedText, UserInfo;
  }

  lemma UpdateApplies(core: Core, m: RequestMessage, client: Endpoint, env: Env)
    requires core.Shaped() && FromInt(m.requestType) == UPDATE
    ensures Guarded(core.facilities, EffectOf(core, m, client, env))
    ensures ExecuteUpdate(core, m, client, env).core.facilities
            == Apply(core.facilities, EffectOf(core, m, client, env))
  {
    hide IsAvailable, ParseUpdate, JavaSplit, Book, Remove, UpdatedText, RatedText, AddRating, UserInfo, Has;
  }
}
