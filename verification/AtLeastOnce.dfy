/** At-least-once semantics: the server executes every copy of a request that arrives. */
module AtLeastOnce {
  import opened Basics
  import opened Bookings
  import opened Messages
  import opened Text
  import opened ServerModel
  import opened Effects
  import opened Runs
  import opened AtMostOnce
  import opened Identifiers
  import opened Repetition
  import Stopping

  function EnvsOf(arrivals: seq<Arrival>): (r: seq<Env>)
    ensures |r| == |arrivals|
  {
    if arrivals == [] then [] else [arrivals[0].env] + EnvsOf(arrivals[1..])
  }

  /** Copies of one request of one client. */
  predicate Copies(arrivals: seq<Arrival>, m: RequestMessage, client: Endpoint) {
    forall i :: 0 <= i < |arrivals| ==> arrivals[i].m == Some(m) && arrivals[i].client == client
  }

  /** A run of copies is the request executed once for each. */
  lemma {:induction false} CopiesRepeat(st: ServerState, arrivals: seq<Arrival>, m: RequestMessage, client: Endpoint)
    requires st.core.Shaped() && Copies(arrivals, m, client) && FromInt(m.requestType) != ECHO
    ensures Run(Machine(st, true), false, arrivals).st.core == Repeat(st.core, m, client, EnvsOf(arrivals))
    decreases arrivals
  {
    hide Process;
    if arrivals != [] {
      var rest := arrivals[1..];
      assert forall i :: 0 <= i < |rest| ==> rest[i] == arrivals[i + 1];
      assert EnvsOf(arrivals)[1..] == EnvsOf(rest);
      var next := Step(Machine(st, true), false, arrivals[0]);
      if next.up {
        CopiesRepeat(next.st, rest, m, client);
      } else {
        Down(next, false, rest);
      }
    }
  }

  /** What becomes of the facilities depends on the facilities alone. */
  lemma SameEffect(core: Core, core1: Core, m: RequestMessage, client: Endpoint, env: Env)
    requires core.Shaped() && core1.Shaped() && core.facilities == core1.facilities
    ensures EffectOf(core, m, client, env) == EffectOf(core1, m, client, env)
  {
    hide Requested, IsAvailable, JavaSplit, UserInfo;
  }

  lemma StepFacilities(a: Machine, b: Machine, next: Arrival)
    requires a.st.core.Shaped() && b.st.core.Shaped()
    requires a.up == b.up && a.st.core.facilities == b.st.core.facilities
    ensures Step(a, false, next).up == Step(b, false, next).up
    ensures Step(a, false, next).st.core.facilities == Step(b, false, next).st.core.facilities
  {
    hide Process, Apply, EffectOf, Stopping.Stops;
    if a.up && Counts(next) {
      Stopping.StopsIff(a.st.core, next.m.value, next.client, next.env);
      Stopping.StopsIff(b.st.core, next.m.value, next.client, next.env);
      ProcessApplies(a.st.core, next.m.value, next.client, next.env);
      ProcessApplies(b.st.core, next.m.value, next.client, next.env);
      SameEffect(a.st.core, b.st.core, next.m.value, next.client, next.env);
    }
  }

  lemma {:induction false} RunFacilities(a: Machine, b: Machine, arrivals: seq<Arrival>)
    requires a.st.core.Shaped() && b.st.core.Shaped()
    requires a.up == b.up && a.st.core.facilities == b.st.core.facilities
    ensures Run(a, false, arrivals).st.core.facilities == Run(b, false, arrivals).st.core.facilities
    decreases arrivals
  {
    hide Step;
    if arrivals != [] {
      StepFacilities(a, b, arrivals[0]);
      RunFacilities(Step(a, false, arrivals[0]), Step(b, false, arrivals[0]), arrivals[1..]);
    }
  }

  lemma {:induction false} CopiesStay(mach: Machine, arrivals: seq<Arrival>, m: RequestMessage, client: Endpoint)
    requires mach.st.core.Shaped() && Copies(arrivals, m, client) && !Stopping.Stops(m)
    ensures Run(mach, false, arrivals).up == mach.up
    decreases arrivals
  {
    hide Process, Stopping.Stops;
    if arrivals != [] {
      assert forall i :: 0 <= i < |arrivals| - 1 ==> arrivals[1..][i] == arrivals[i + 1];
      Stopping.StopsIff(mach.st.core, m, client, arrivals[0].env);
      CopiesStay(Step(mach, false, arrivals[0]), arrivals[1..], m, client);
    }
  }

  /** Wherever in a run a booking, update or delete request is executed, further copies of it
      right behind make no difference to the facilities, then or later. */
  lemma CopiesAreHarmless(mach: Machine, before: seq<Arrival>, a: Arrival, more: seq<Arrival>, after: seq<Arrival>)
    requires mach.st.core.Shaped() && UniqueIDs(mach.st.core.facilities)
    requires FreshSupply(mach.st.core.facilities, before)
    requires Counts(a) && AboutBookings(a.m.value) && Copies(more, a.m.value, a.client)
    requires Requested(a.m.value, a.env).Some? ==> Requested(a.m.value, a.env).value.slot.NonEmpty()
    ensures Run(mach, false, before + [a] + more + after).st.core.facilities
            == Run(mach, false, before + [a] + after).st.core.facilities
  {
    hide Step, UniqueIDs, FreshSupply, Requested, AboutBookings, Repeat, EnvsOf, Copies, Stopping.Stops;
    var here := Run(mach, false, before);
    ReachableUnique(mach, false, before);
    RunSplits(mach, false, before, [a]);
    RunSplits(mach, false, before + [a], more);
    RunSplits(mach, false, before + [a] + more, after);
    RunSplits(mach, false, before + [a], after);
    var once := Run(here, false, [a]);
    var often := Run(once, false, more);
    if once.up {
      AllCopies(a, more);
      CopiesRepeat(here.st, [a], a.m.value, a.client);
      CopiesRepeat(here.st, [a] + more, a.m.value, a.client);
      EnvsJoin(a, more);
      RepeatingBookingsIsHarmless(here.st.core, a.m.value, a.client, a.env, EnvsOf(more));
      RunSplits(here, false, [a], more);
      UpBefore(here, a);
      CopiesStay(once, more, a.m.value, a.client);
    } else {
      Down(once, false, more);
    }
    RunFacilities(often, once, after);
  }

  lemma AllCopies(a: Arrival, more: seq<Arrival>)
    requires a.m.Some? && Copies(more, a.m.value, a.client)
    ensures Copies([a] + more, a.m.value, a.client) && Copies([a], a.m.value, a.client)
  {
  }

  lemma EnvsJoin(a: Arrival, more: seq<Arrival>)
    ensures EnvsOf([a] + more) == [a.env] + EnvsOf(more) && EnvsOf([a]) == [a.env]
  {
    assert ([a] + more)[1..] == more && [a][1..] == [];
  }

  lemma UpBefore(mach: Machine, a: Arrival)
    requires mach.st.core.Shaped() && Counts(a) && Run(mach, false, [a]).up
    ensures mach.up && !Stopping.Stops(a.m.value)
  {
    hide Run, Stopping.Stops;
    if mach.up {
      Stopping.SurvivesEveryRequestIff(mach.st, [a]);
      assert a in [a];
    } else {
      Down(mach, false, [a]);
    }
  }
}
