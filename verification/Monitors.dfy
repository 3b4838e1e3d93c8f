/** Who is told about a change. Over every run the server keeps no more than the monitors it
    still has to serve, and announces each change of bookings to exactly those. */
module Monitors {
  import opened Basics
  import opened TimeSlots
  import opened Bookings
  import opened Messages
  import opened Text
  import opened Searching
  import opened ServerModel
  import opened Effects
  import opened Runs

  // ---------- expiry ----------

  /** More than the interval, in seconds, has passed since the registration. */
  predicate Lapsed(mon: Monitor, now: int) { now - mon.createdTime > 1000 * mon.monitorInterval }

  /** The server multiplies the interval in 32 bits, so it judges expiry correctly exactly for
      intervals up to 2147483 seconds in size. */
  lemma ExpiryExact(mon: Monitor)
    requires InInt32(mon.monitorInterval)
    ensures (forall now :: Expired(mon, now) <==> Lapsed(mon, now)) <==> -2147483 <= mon.monitorInterval <= 2147483
  {
    var n := mon.monitorInterval * 1000;
    if -2147483 <= mon.monitorInterval <= 2147483 {
      assert Wrap32(n) == n;
    } else {
      assert Wrap32(n) != n;
      var between := mon.createdTime + if n < Wrap32(n) then Wrap32(n) else n;
      assert Expired(mon, between) != Lapsed(mon, between);
    }
  }

  /** One second more and the monitor has expired before it was registered. */
  lemma LongIntervalExpiresAtOnce(client: Endpoint, id: int32, name: string, now: int)
    ensures Expired(Monitor(name, id, client, now, 2147484), now)
  {
  }

  lemma ExpiryLasts(mon: Monitor, now: int, later: int)
    requires now <= later && Expired(mon, now)
    ensures Expired(mon, later)
  {
  }

  lemma {:induction false} UnexpiredJoins(a: seq<Monitor>, b: seq<Monitor>, now: int)
    ensures Unexpired(a + b, now) == Unexpired(a, now) + Unexpired(b, now)
  {
    if a == [] {
      assert a + b == b;
    } else {
      assert (a + b)[1..] == a[1..] + b;
      UnexpiredJoins(a[1..], b, now);
    }
  }

  /** Dropping what has expired now changes nothing about what will be unexpired later. */
  lemma {:induction false} DroppingIsSafe(ms: seq<Monitor>, now: int, later: int)
    requires now <= later
    ensures Unexpired(Unexpired(ms, now), later) == Unexpired(ms, later)
  {
    if ms != [] {
      DroppingIsSafe(ms[1..], now, later);
      if !Expired(ms[0], now) {
        assert ([ms[0]] + Unexpired(ms[1..], now))[1..] == Unexpired(ms[1..], now);
      } else {
        ExpiryLasts(ms[0], now, later);
      }
    }
  }

  // ---------- which facility a request touches ----------

  predicate Known(fs: seq<Facility>, name: string) { FacilityIndex(fs, name) < |fs| }

  /** The facility an executed request touches: a booking or an update of one whose text
      parses, or a deletion, that names a known facility. Ratings touch none. */
  function Touched(fs: seq<Facility>, m: RequestMessage, env: Env): (r: Option<string>) {
    match Requested(m, env)
    case Some(b) => if Known(fs, b.facilityName) then Some(b.facilityName) else None
    case None =>
      if FromInt(m.requestType) == DELETE && m.data.Some? && |JavaSplit(m.data.value)| >= 2
         && Known(fs, JavaSplit(m.data.value)[1])
      then Some(JavaSplit(m.data.value)[1])
      else None
  }

  /** The registration a request makes, if it makes one. */
  function Registration(fs: seq<Facility>, m: RequestMessage, client: Endpoint, env: Env): (r: seq<Monitor>) {
    if FromInt(m.requestType) != MONITOR || m.data.None? then []
    else
      var parts := JavaSplit(m.data.value);
      if |parts| >= 3 && parts[0] == "register" && ParseInt(parts[2]).Some? && Known(fs, parts[1])
      then [Monitor(parts[1], m.requestID, client, env.now, ParseInt(parts[2]).value)]
      else []
  }

  lemma ExecuteMonitors(core: Core, m: RequestMessage, client: Endpoint, env: Env)
    requires core.Shaped() && Execute(core, m, client, env).Executed?
    ensures var r := Execute(core, m, client, env);
            && r.core.monitors == core.monitors + Registration(core.facilities, m, client, env)
            && r.updated == Touched(core.facilities, m, env)
  {
    hide AvailabilityText, IsAvailable, ParseBooking, ParseUpdate, JavaSplit, Book, Remove, BookedText, UpdatedText,
         RatedText, AddRating, BookingAnswer, RatingAnswer, FacilityNames, WantedDays, Has, UserInfo, PrintInt,
         ExecuteUpdate, ParseInt;
    assert core.monitors + [] == core.monitors;
    if FromInt(m.requestType) == UPDATE {
      UpdateTouches(core, m, client, env);
    }
  }

  lemma UpdateTouches(core: Core, m: RequestMessage, client: Endpoint, env: Env)
    requires core.Shaped() && FromInt(m.requestType) == UPDATE
    ensures var r := ExecuteUpdate(core, m, client, env);
            r.core.monitors == core.monitors && r.updated == Touched(core.facilities, m, env)
  {
    hide IsAvailable, ParseUpdate, JavaSplit, Book, Remove, UpdatedText, RatedText, AddRating, UserInfo, Has;
  }

  // ---------- the text of a notification ----------

  lemma SlotLacks(slot: TimeSlot)
    ensures Lacks(SlotText(slot), 's')
  {
    assert Lacks("0", 's') && Lacks("-", 's') && Lacks(" - ", 's');
  }

  lemma {:induction false} SlotsLack(slots: seq<TimeSlot>)
    ensures Lacks(SlotsText(slots), 's')
  {
    hide SlotText;
    if slots != [] {
      SlotLacks(slots[0]);
      SlotsLack(slots[1..]);
    }
  }

  lemma {:induction false} DaysLack(c: Calendar, days: seq<Day>, wanted: set<Day>)
    requires c.Shaped()
    ensures Lacks(DaysText(c, days, wanted), 's')
  {
    hide FreeSlots, SlotsText;
    if days != [] {
      SlotsLack(FreeSlots(c, days[0]));
      DayRoundTrip(days[0]);
      assert forall i :: 0 <= i < |DayName(days[0])| ==> DayName(days[0])[i] in DayName(days[0]);
      DaysLack(c, days[1..], wanted);
    }
  }

  lemma FacilityLine(name: string)
    ensures Contains("facility:" + name, "status:ERROR") <==> Contains(name, "status:ERROR")
  {
    var s := "facility:" + name;
    forall i: nat | i < 9 ensures !MatchesAt(s, "status:ERROR", i) {
      assert s[i] != 's';
      NoMatch(s, "status:ERROR", i, 0);
    }
    ContainsBehind("facility:", name, "status:ERROR");
  }

  lemma HeaderLines()
    ensures !Contains("status:SUCCESS", "status:ERROR") && !Contains("availableTimeslots:", "status:ERROR")
  {
    var a, b := "status:SUCCESS", "availableTimeslots:";
    forall i: nat | i <= |a| ensures !MatchesAt(a, "status:ERROR", i) {
      NoMatch(a, "status:ERROR", i, if i == 0 then 7 else 0);
    }
    forall i: nat | i <= |b| ensures !MatchesAt(b, "status:ERROR", i) {
      NoMatch(b, "status:ERROR", i, 0);
    }
  }

  /** The server takes the availability of a known facility for an error text exactly when the
      facility's name says so. */
  lemma OnlyTheNameMisleads(core: Core, name: string)
    requires core.Shaped() && Known(core.facilities, name)
    ensures Contains(AvailabilityText(core, name, {}), "status:ERROR") <==> Contains(name, "status:ERROR")
  {
    hide DaysText, Contains, Lacks;
    var p: string := "status:ERROR";
    var days := DaysText(core.facilities[FacilityIndex(core.facilities, name)].calendar, WEEK, {});
    DaysLack(core.facilities[FacilityIndex(core.facilities, name)].calendar, WEEK, {});
    assert Lacks(days, p[0]);
    LacksPattern(days, p);
    HeaderLines();
    FacilityLine(name);
    FourLines("status:SUCCESS", "facility:" + name, "availableTimeslots:", days, p);
    FourParts(name, days);
  }

  lemma FourParts(name: string, days: string)
    ensures "status:SUCCESS\nfacility:" + name + "\navailableTimeslots:\n" + days
            == "status:SUCCESS" + ['\n'] + ("facility:" + name + ['\n'] + ("availableTimeslots:" + ['\n'] + days))
  {
  }

  lemma FourLines(a: string, b: string, c: string, d: string, p: string)
    requires p != "" && '\n' !in p
    ensures Contains(a + ['\n'] + (b + ['\n'] + (c + ['\n'] + d)), p)
            <==> Contains(a, p) || Contains(b, p) || Contains(c, p) || Contains(d, p)
  {
    hide Contains;
    ContainsAcross(c, '\n', d, p);
    ContainsAcross(b, '\n', c + ['\n'] + d, p);
    ContainsAcross(a, '\n', b + ['\n'] + (c + ['\n'] + d), p);
  }

  // ---------- one request ----------

  lemma ProcessMonitors(core: Core, m: RequestMessage, client: Endpoint, env: Env)
    requires core.Shaped() && Process(core, m, client, env).Processed?
    ensures var r := Process(core, m, client, env);
            var all := core.monitors + Registration(core.facilities, m, client, env);
            && (forall later :: env.now <= later ==> Unexpired(r.core.monitors, later) == Unexpired(all, later))
            && match Touched(core.facilities, m, env)
               case None => r.notices == []
               case Some(name) =>
                 r.notices == if Contains(name, "status:ERROR") then []
                              else NoticesFor(Unexpired(all, env.now), name, AvailabilityText(r.core, name, {}))
  {
    hide Execute, AvailabilityText, Contains, NoticesFor, Unexpired, Registration, JavaSplit, ParseBooking, ParseUpdate;
    ExecuteMonitors(core, m, client, env);
    ProcessFacilities(core, m, client, env);
    var all := core.monitors + Registration(core.facilities, m, client, env);
    forall later | env.now <= later ensures Unexpired(Unexpired(all, env.now), later) == Unexpired(all, later) {
      DroppingIsSafe(all, env.now, later);
    }
    var r := Process(core, m, client, env);
    if Touched(core.facilities, m, env).Some? {
      var name := Touched(core.facilities, m, env).value;
      NamesKept(core, m, client, env, name);
      OnlyTheNameMisleads(r.core, name);
      TextExists(r.core, name);
    }
  }

  lemma TextExists(core: Core, name: string)
    requires core.Shaped()
    ensures AvailabilityText(core, name, {}) != ""
  {
  }

  lemma NamesKept(core: Core, m: RequestMessage, client: Endpoint, env: Env, name: string)
    requires core.Shaped() && Process(core, m, client, env).Processed?
    ensures Known(Process(core, m, client, env).core.facilities, name) <==> Known(core.facilities, name)
    ensures SameNames(core.facilities, Process(core, m, client, env).core.facilities)
  {
    hide Process, Execute, EffectOf, IsAvailable;
    ProcessFacilities(core, m, client, env);
    ExecuteApplies(core, m, client, env);
    SameKnown(core.facilities, Process(core, m, client, env).core.facilities, name);
  }

  predicate SameNames(fs: seq<Facility>, gs: seq<Facility>) {
    |fs| == |gs| && forall i :: 0 <= i < |fs| ==> fs[i].name == gs[i].name
  }

  lemma SameKnown(fs: seq<Facility>, gs: seq<Facility>, name: string)
    requires SameNames(fs, gs)
    ensures Known(fs, name) <==> Known(gs, name)
  {
    var i, j := FacilityIndex(fs, name), FacilityIndex(gs, name);
    assert !(i < j) && !(j < i);
  }

  // ---------- runs ----------

  /** Every registration executed in a run, in order; none is ever taken out here. */
  function Registrations(mach: Machine, checkHistory: bool, arrivals: seq<Arrival>): (r: seq<Monitor>)
    requires mach.st.core.Shaped()
    decreases arrivals
  {
    hide Step, Registration;
    if arrivals == [] then []
    else
      var a := arrivals[0];
      (if Executes(mach, checkHistory, a) then Registration(mach.st.core.facilities, a.m.value, a.client, a.env)
       else [])
      + Registrations(Step(mach, checkHistory, a), checkHistory, arrivals[1..])
  }

  /** The clock, read once per request, does not run backwards and has not passed now. */
  predicate Monotone(arrivals: seq<Arrival>, now: int) {
    && (forall i, j :: 0 <= i < j < |arrivals| ==> arrivals[i].env.now <= arrivals[j].env.now)
    && (forall i :: 0 <= i < |arrivals| ==> arrivals[i].env.now <= now)
  }

  lemma CrashRegistersNothing(core: Core, m: RequestMessage, client: Endpoint, env: Env)
    requires core.Shaped() && Process(core, m, client, env).Crashed?
    ensures Registration(core.facilities, m, client, env) == []
  {
    hide JavaSplit, AvailabilityText, ExecuteWrite, ExecuteUpdate, ExecuteDelete, ExecuteMonitor, NoticesFor, Contains;
  }

  lemma StepMonitors(mach: Machine, checkHistory: bool, a: Arrival, later: int)
    requires mach.st.core.Shaped() && a.env.now <= later
    ensures Unexpired(Step(mach, checkHistory, a).st.core.monitors, later)
            == Unexpired(mach.st.core.monitors
                         + (if Executes(mach, checkHistory, a)
                            then Registration(mach.st.core.facilities, a.m.value, a.client, a.env) else []), later)
  {
    hide Step, Registration, Unexpired, Process, Executes;
    StepCore(mach, checkHistory, a);
    assert mach.st.core.monitors + [] == mach.st.core.monitors;
    if Executes(mach, checkHistory, a) {
      ExecutesSome(mach, checkHistory, a);
      match Process(mach.st.core, a.m.value, a.client, a.env)
      case Crashed => CrashRegistersNothing(mach.st.core, a.m.value, a.client, a.env);
      case Processed(_, _, _) => ProcessMonitors(mach.st.core, a.m.value, a.client, a.env);
    }
  }

  lemma ExecutesSome(mach: Machine, checkHistory: bool, a: Arrival)
    requires Executes(mach, checkHistory, a)
    ensures a.m.Some?
  {
  }

  /** The monitors a server still serves are the unexpired ones among all ever registered. */
  lemma {:induction false} RunMonitors(mach: Machine, checkHistory: bool, arrivals: seq<Arrival>, now: int)
    requires mach.st.core.Shaped() && Monotone(arrivals, now)
    ensures Unexpired(Run(mach, checkHistory, arrivals).st.core.monitors, now)
            == Unexpired(mach.st.core.monitors + Registrations(mach, checkHistory, arrivals), now)
    decreases arrivals
  {
    hide Step, Registration, Unexpired, Executes;
    if arrivals == [] {
      assert mach.st.core.monitors + [] == mach.st.core.monitors;
    } else {
      var a, next := arrivals[0], Step(mach, checkHistory, arrivals[0]);
      assert forall i :: 0 <= i < |arrivals| - 1 ==> arrivals[1..][i] == arrivals[i + 1];
      RunMonitors(next, checkHistory, arrivals[1..], now);
      StepMonitors(mach, checkHistory, a, now);
      if Executes(mach, checkHistory, a) { ExecutesSome(mach, checkHistory, a); }
      var here := if Executes(mach, checkHistory, a)
                  then Registration(mach.st.core.facilities, a.m.value, a.client, a.env) else [];
      var rest := Registrations(next, checkHistory, arrivals[1..]);
      UnexpiredJoins(next.st.core.monitors, rest, now);
      UnexpiredJoins(mach.st.core.monitors + here, rest, now);
      assert mach.st.core.monitors + here + rest == mach.st.core.monitors + (here + rest);
    }
  }

  /** Those of ms that watch this facility and whose time has not run out. */
  function Watching(ms: seq<Monitor>, name: string, now: int): (r: seq<Monitor>)
    ensures forall m :: m in r <==> m in ms && m.resourceName == name && !Lapsed(m, now)
  {
    if ms == [] then []
    else
      assert ms == [ms[0]] + ms[1..];
      if ms[0].resourceName == name && !Lapsed(ms[0], now) then [ms[0]] + Watching(ms[1..], name, now)
      else Watching(ms[1..], name, now)
  }

  /** The datagram to each of ms, in order: the printed form of a message with code and ID 0
      whose data are the text. */
  function Notices(ms: seq<Monitor>, text: string): (r: seq<Notice>)
    ensures |r| == |ms|
    ensures forall i :: 0 <= i < |ms| ==> r[i] == Notice(ms[i].client, "RequestMessage: 0 0 " + text)
  {
    if ms == [] then [] else [Notice(ms[0].client, "RequestMessage: 0 0 " + text)] + Notices(ms[1..], text)
  }

  /** A notification carries the text it is made from behind twenty characters. */
  lemma NoticeCarries(text: string)
    ensures |NoticeText(text)| == 20 + |text|
    ensures NoticeText(text)[..20] == "RequestMessage: 0 0 " && NoticeText(text)[20..] == text
  {
    assert NoticeText(text)[20..] == text;
  }

  predicate ShortIntervals(ms: seq<Monitor>) {
    forall i :: 0 <= i < |ms| ==> -2147483 <= ms[i].monitorInterval <= 2147483
  }

  lemma {:induction false} NoticesReachWatching(ms: seq<Monitor>, name: string, now: int, text: string)
    requires ShortIntervals(ms)
    ensures NoticesFor(Unexpired(ms, now), name, text) == Notices(Watching(ms, name, now), text)
  {
    if ms != [] {
      assert Wrap32(ms[0].monitorInterval * 1000) == ms[0].monitorInterval * 1000;
      NoticesReachWatching(ms[1..], name, now, text);
      assert ([ms[0]] + Unexpired(ms[1..], now))[1..] == Unexpired(ms[1..], now);
      assert ([ms[0]] + Watching(ms[1..], name, now))[1..] == Watching(ms[1..], name, now);
    }
  }

  /** After any run of a server that started without monitors, the next datagram causes
      notices exactly when it is a request that gets executed and touches a known facility,
      and then one to each registration of that facility whose interval has not run out,
      with the availability after the change. */
  lemma NoticesExact(core: Core, checkHistory: bool, arrivals: seq<Arrival>, a: Arrival)
    requires core.Shaped() && core.monitors == [] && Monotone(arrivals, a.env.now)
    requires var start := Machine(ServerState(core, []), true);
             Run(start, checkHistory, arrivals).up && ShortIntervals(Registrations(start, checkHistory, arrivals))
    ensures var start := Machine(ServerState(core, []), true);
            var here := Run(start, checkHistory, arrivals);
            match Handle(here.st, checkHistory, a.m, a.client, a.env)
            case Halted => true
            case Handled(after, _, notices) =>
              var touched := if Executes(here, checkHistory, a) then Touched(here.st.core.facilities, a.m.value, a.env)
                             else None;
              match touched
              case None => notices == []
              case Some(name) =>
                !Contains(name, "status:ERROR") ==>
                  notices == Notices(Watching(Registrations(start, checkHistory, arrivals), name, a.env.now),
                                     AvailabilityText(after.core, name, {}))
  {
    hide Run, Process, Touched, Unexpired, NoticesFor, Registrations, AvailabilityText, Contains, Watching, Notices;
    var start := Machine(ServerState(core, []), true);
    var here := Run(start, checkHistory, arrivals);
    var all := Registrations(start, checkHistory, arrivals);
    if Executes(here, checkHistory, a) && Process(here.st.core, a.m.value, a.client, a.env).Processed? {
      ProcessMonitors(here.st.core, a.m.value, a.client, a.env);
      RunMonitors(start, checkHistory, arrivals, a.env.now);
      assert core.monitors + all == all;
      match Touched(here.st.core.facilities, a.m.value, a.env)
      case None =>
      case Some(name) =>
        TouchesOrRegisters(here.st.core.facilities, a.m.value, a.client, a.env);
        assert here.st.core.monitors + [] == here.st.core.monitors;
        var after := Process(here.st.core, a.m.value, a.client, a.env).core;
        NoticesReachWatching(all, name, a.env.now, AvailabilityText(after, name, {}));
    }
  }

  lemma TouchesOrRegisters(fs: seq<Facility>, m: RequestMessage, client: Endpoint, env: Env)
    ensures Touched(fs, m, env).Some? ==> Registration(fs, m, client, env) == []
  {
  }
}
