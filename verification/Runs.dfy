/** Runs of the server: any sequence of datagrams, handled one after the other. */
module Runs {
  import opened Basics
  import opened Messages
  import opened ServerModel
  import opened Searching

  /** A datagram as the server meets it: what it decodes to, who sent it and what the
      platform will answer while it is handled. */
  datatype Arrival = Arrival(m: Option<RequestMessage>, client: Endpoint, env: Env)

  datatype Machine = Machine(st: ServerState, up: bool)

  function Step(mach: Machine, checkHistory: bool, a: Arrival): (mach': Machine)
    requires mach.st.core.Shaped()
    ensures mach'.st.core.Shaped()
  {
    hide Process;
    if !mach.up then mach
    else
      match Handle(mach.st, checkHistory, a.m, a.client, a.env)
      case Halted => Machine(mach.st, false)
      case Handled(st, _, _) => Machine(st, true)
  }

  function Run(mach: Machine, checkHistory: bool, arrivals: seq<Arrival>): (mach': Machine)
    requires mach.st.core.Shaped()
    ensures mach'.st.core.Shaped()
    decreases arrivals
  {
    if arrivals == [] then mach else Run(Step(mach, checkHistory, arrivals[0]), checkHistory, arrivals[1..])
  }

  /** The requests a step executes: none when the server is down, the datagram makes no
      sense, asks for an echo or repeats a recorded request. */
  predicate Executes(mach: Machine, checkHistory: bool, a: Arrival) {
    && mach.up && a.m.Some? && FromInt(a.m.value.requestType) != ECHO
    && !(checkHistory && Recorded(mach.st.history, a.m.value.requestID, a.client) < |mach.st.history|)
  }

  /** A step either leaves everything but the history alone or processes the request. */
  lemma StepCore(mach: Machine, checkHistory: bool, a: Arrival)
    requires mach.st.core.Shaped()
    ensures var core' := Step(mach, checkHistory, a).st.core;
            if !Executes(mach, checkHistory, a) then core' == mach.st.core
            else match Process(mach.st.core, a.m.value, a.client, a.env)
                 case Crashed => core' == mach.st.core
                 case Processed(core, _, _) => core' == core
  {
    hide Process;
  }

  lemma ProcessFacilities(core: Core, m: RequestMessage, client: Endpoint, env: Env)
    requires core.Shaped()
    ensures match Process(core, m, client, env)
            case Crashed => Execute(core, m, client, env).Stopped?
            case Processed(core', _, _) =>
              Execute(core, m, client, env).Executed?
              && core'.facilities == Execute(core, m, client, env).core.facilities
  {
    hide Execute, AvailabilityText, Contains, NoticesFor, Unexpired;
  }

  /** An invariant of the facilities that every execution keeps holds after every run. */
  lemma {:induction false} RunKeeps(mach: Machine, checkHistory: bool, arrivals: seq<Arrival>,
                                    inv: seq<Facility> -> bool, allowed: Arrival -> bool)
    requires mach.st.core.Shaped() && inv(mach.st.core.facilities)
    requires forall a <- arrivals :: allowed(a)
    requires forall core: Core, a: Arrival ::
               core.Shaped() && inv(core.facilities) && a.m.Some? && allowed(a)
               && Execute(core, a.m.value, a.client, a.env).Executed?
               ==> inv(Execute(core, a.m.value, a.client, a.env).core.facilities)
    ensures inv(Run(mach, checkHistory, arrivals).st.core.facilities)
    decreases arrivals
  {
    hide Execute, Step, Process;
    if arrivals != [] {
      var a := arrivals[0];
      StepCore(mach, checkHistory, a);
      if a.m.Some? {
        ProcessFacilities(mach.st.core, a.m.value, a.client, a.env);
      }
      assert a in arrivals;
      RunKeeps(Step(mach, checkHistory, a), checkHistory, arrivals[1..], inv, allowed);
    }
  }
}
