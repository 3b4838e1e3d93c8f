/** Which requests end the server: READ is the one operation without an exception handler. */
module Stopping {
  import opened Basics
  import opened Messages
  import opened Text
  import opened Searching
  import opened ServerModel
  import opened Runs
  import opened AtMostOnce

  /** Data a READ cannot cope with: none, a list without parts, or an availability query with
      a word that is no day among the days. */
  predicate BadRead(data: Option<string>) {
    data.None? ||
    var parts := JavaSplit(data.value);
    || parts == []
    || (|parts| >= 2 && parts[0] == "facility" && parts[1] != "ALL" && exists p <- parts[2..] :: ParseDay(p).None?)
  }

  predicate Stops(m: RequestMessage) { FromInt(m.requestType) == READ && BadRead(m.data) }

  lemma {:induction false} WantedDaysIff(parts: seq<string>)
    ensures WantedDays(parts).None? <==> exists p <- parts :: ParseDay(p).None?
  {
    hide ParseDay;
    if parts != [] {
      WantedDaysIff(parts[1..]);
      assert parts == [parts[0]] + parts[1..];
    }
  }

  lemma ReadStopsIff(core: Core, m: RequestMessage)
    requires core.Shaped()
    ensures ExecuteRead(core, m).Stopped? <==> BadRead(m.data)
  {
    hide AvailabilityText, BookingAnswer, RatingAnswer, FacilityNames, JavaSplit, WantedDays, ParseDay;
    if m.data.Some? && |JavaSplit(m.data.value)| >= 2 {
      WantedDaysIff(JavaSplit(m.data.value)[2..]);
    }
  }

  /** Executing a request ends the server iff it is such a READ, whatever the state. */
  lemma StopsIff(core: Core, m: RequestMessage, client: Endpoint, env: Env)
    requires core.Shaped()
    ensures Execute(core, m, client, env).Stopped? <==> Stops(m)
    ensures Process(core, m, client, env).Crashed? <==> Stops(m)
  {
    hide ExecuteRead, ExecuteWrite, ExecuteUpdate, ExecuteDelete, ExecuteMonitor, BadRead, AvailabilityText, Contains,
         NoticesFor, Unexpired;
    ReadStopsIff(core, m);
  }

  lemma {:induction false} ExecutionUpIff(core: Core, requests: seq<Arrival>)
    requires core.Shaped() && forall a <- requests :: Counts(a)
    ensures ExecuteAll(core, requests).up <==> forall a <- requests :: !Stops(a.m.value)
    decreases requests
  {
    hide Process, Stops;
    if requests != [] {
      var a := requests[0];
      assert a in requests && Counts(a);
      StopsIff(core, a.m.value, a.client, a.env);
      assert forall b <- requests[1..] :: b in requests;
      assert requests == [a] + requests[1..];
      if Process(core, a.m.value, a.client, a.env).Processed? {
        ExecutionUpIff(Process(core, a.m.value, a.client, a.env).core, requests[1..]);
      }
    }
  }

  /** At most once: the server survives a run iff no first arrival of a key is such a READ. */
  lemma SurvivesIff(core: Core, arrivals: seq<Arrival>)
    requires core.Shaped()
    ensures Run(Machine(ServerState(core, []), true), true, arrivals).up
            <==> forall a <- Firsts(arrivals, {}) :: !Stops(a.m.value)
  {
    hide Process, Stops;
    RunIsExactlyOnce(core, arrivals);
    ExecutionUpIff(core, Firsts(arrivals, {}));
  }

  /** At least once: iff no arrival at all is. */
  lemma {:induction false} SurvivesEveryRequestIff(st: ServerState, arrivals: seq<Arrival>)
    requires st.core.Shaped()
    ensures Run(Machine(st, true), false, arrivals).up
            <==> forall a <- arrivals :: a.m.Some? ==> !Stops(a.m.value)
    decreases arrivals
  {
    hide Process, BadRead;
    if arrivals != [] {
      var a := arrivals[0];
      assert arrivals == [a] + arrivals[1..];
      if a.m.Some? {
        StopsIff(st.core, a.m.value, a.client, a.env);
      }
      var next := Step(Machine(st, true), false, a);
      if next.up {
        SurvivesEveryRequestIff(next.st, arrivals[1..]);
      } else {
        Down(next, false, arrivals[1..]);
      }
    }
  }
}
