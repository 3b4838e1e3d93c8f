/** At-most-once semantics: whatever a lossy, duplicating and reordering network delivers,
    the server's state is the one an executor that runs each request once would reach. */
module AtMostOnce {
  import opened Basics
  import opened ServerModel
  import opened Runs

  // ---------- the executor that never sees a duplicate ----------

  datatype Key = Key(client: Endpoint, id: int32)

  predicate Counts(a: Arrival) { a.m.Some? && FromInt(a.m.value.requestType) != ECHO }

  function KeyOf(a: Arrival): Key
    requires a.m.Some?
  {
    Key(a.client, a.m.value.requestID)
  }

  /** The arrivals that are the first of their key, in order of arrival. Echoes and datagrams
      that make no sense are not among them. */
  function Firsts(arrivals: seq<Arrival>, seen: set<Key>): (r: seq<Arrival>)
    ensures forall a <- r :: Counts(a)
  {
    if arrivals == [] then []
    else
      var a := arrivals[0];
      if Counts(a) && KeyOf(a) !in seen then [a] + Firsts(arrivals[1..], seen + {KeyOf(a)})
      else Firsts(arrivals[1..], seen)
  }

  datatype Execution = Execution(core: Core, log: seq<RequestInfo>, up: bool)

  /** Executes every request of a list, one after the other, until one stops the server. */
  function ExecuteAll(core: Core, requests: seq<Arrival>): (r: Execution)
    requires core.Shaped() && forall a <- requests :: Counts(a)
    decreases requests
  {
    hide Process;
    if requests == [] then Execution(core, [], true)
    else
      var a := requests[0];
      assert a in requests && Counts(a);
      match Process(core, a.m.value, a.client, a.env)
      case Crashed => Execution(core, [], false)
      case Processed(core1, response, _) =>
        var rest := ExecuteAll(core1, requests[1..]);
        Execution(rest.core, [RequestInfo(a.m.value, a.client, response)] + rest.log, rest.up)
  }

  // ---------- the history ----------

  function Keys(history: seq<RequestInfo>): (keys: set<Key>) {
    set r <- history :: Key(r.client, r.message.requestID)
  }

  predicate UniqueKeys(history: seq<RequestInfo>) {
    forall i, j :: 0 <= i < j < |history| ==>
      !SameKey(history[j], history[i].message.requestID, history[i].client)
  }

  lemma RecordedIff(history: seq<RequestInfo>, id: int32, client: Endpoint)
    ensures Recorded(history, id, client) < |history| <==> Key(client, id) in Keys(history)
  {
    var i := Recorded(history, id, client);
    if i < |history| {
      assert history[i] in history;
    }
    if Key(client, id) in Keys(history) {
      var r :| r in history && Key(r.client, r.message.requestID) == Key(client, id);
      var j :| 0 <= j < |history| && history[j] == r;
      assert SameKey(history[j], id, client);
    }
  }

  lemma KeysGrow(history: seq<RequestInfo>, r: RequestInfo)
    ensures Keys(history + [r]) == Keys(history) + {Key(r.client, r.message.requestID)}
  {
  }

  /** The run and the executor agree on the state, the recorded replies and whether the server
      is still up. */
  lemma {:induction false} RunIsExactlyOnceFrom(st: ServerState, arrivals: seq<Arrival>)
    requires st.core.Shaped()
    ensures var e := ExecuteAll(st.core, Firsts(arrivals, Keys(st.history)));
            Run(Machine(st, true), true, arrivals) == Machine(ServerState(e.core, st.history + e.log), e.up)
    decreases arrivals
  {
    hide Process, Keys;
    if arrivals == [] {
      assert st.history + [] == st.history;
      return;
    }
    var a := arrivals[0];
    if !Counts(a) {
      RunIsExactlyOnceFrom(st, arrivals[1..]);
    } else {
      RecordedIff(st.history, a.m.value.requestID, a.client);
      if KeyOf(a) in Keys(st.history) {
        RunIsExactlyOnceFrom(st, arrivals[1..]);
      } else {
        FirstExecuted(st, arrivals);
        match Process(st.core, a.m.value, a.client, a.env)
        case Crashed => Down(Machine(st, false), true, arrivals[1..]);
          assert st.history + [] == st.history;
        case Processed(core1, response, _) =>
          var info := RequestInfo(a.m.value, a.client, response);
          KeysGrow(st.history, info);
          RunIsExactlyOnceFrom(ServerState(core1, st.history + [info]), arrivals[1..]);
          var rest := ExecuteAll(core1, Firsts(arrivals[1..], Keys(st.history) + {KeyOf(a)}));
          assert st.history + [info] + rest.log == st.history + ([info] + rest.log);
      }
    }
  }

  lemma FirstExecuted(st: ServerState, arrivals: seq<Arrival>)
    requires arrivals != [] && Counts(arrivals[0]) && KeyOf(arrivals[0]) !in Keys(st.history)
    ensures Firsts(arrivals, Keys(st.history))
            == [arrivals[0]] + Firsts(arrivals[1..], Keys(st.history) + {KeyOf(arrivals[0])})
    ensures Firsts(arrivals, Keys(st.history))[1..] == Firsts(arrivals[1..], Keys(st.history) + {KeyOf(arrivals[0])})
  {
  }

  lemma {:induction false} Down(mach: Machine, checkHistory: bool, arrivals: seq<Arrival>)
    requires mach.st.core.Shaped() && !mach.up
    ensures Run(mach, checkHistory, arrivals) == mach
    decreases arrivals
  {
    hide Process;
    if arrivals != [] {
      Down(mach, checkHistory, arrivals[1..]);
    }
  }

  /** Over every run from a fresh start, facilities, ratings and monitors are what executing
      each distinct request once, in order of first arrival, makes of them. */
  lemma RunIsExactlyOnce(core: Core, arrivals: seq<Arrival>)
    requires core.Shaped()
    ensures var e := ExecuteAll(core, Firsts(arrivals, {}));
            Run(Machine(ServerState(core, []), true), true, arrivals) == Machine(ServerState(e.core, e.log), e.up)
  {
    hide Process;
    RunIsExactlyOnceFrom(ServerState(core, []), arrivals);
    assert Keys([]) == {};
  }

  // ---------- one reply per key ----------

  lemma StepHistory(mach: Machine, a: Arrival)
    requires mach.st.core.Shaped() && UniqueKeys(mach.st.history)
    ensures var mach' := Step(mach, true, a);
            UniqueKeys(mach'.st.history) && mach.st.history <= mach'.st.history
  {
    hide Process;
    if Executes(mach, true, a) {
      RecordedIff(mach.st.history, a.m.value.requestID, a.client);
    }
  }

  /** Keys stay unique and nothing recorded is ever changed or dropped. */
  lemma {:induction false} RunHistory(mach: Machine, arrivals: seq<Arrival>)
    requires mach.st.core.Shaped() && UniqueKeys(mach.st.history)
    ensures var mach' := Run(mach, true, arrivals);
            UniqueKeys(mach'.st.history) && mach.st.history <= mach'.st.history
    decreases arrivals
  {
    hide Step, UniqueKeys;
    if arrivals != [] {
      StepHistory(mach, arrivals[0]);
      RunHistory(Step(mach, true, arrivals[0]), arrivals[1..]);
    }
  }

  lemma {:induction false} RunSplits(mach: Machine, checkHistory: bool, a: seq<Arrival>, b: seq<Arrival>)
    requires mach.st.core.Shaped()
    ensures Run(mach, checkHistory, a + b) == Run(Run(mach, checkHistory, a), checkHistory, b)
    decreases a
  {
    hide Step;
    if a == [] {
      assert a + b == b;
    } else {
      assert (a + b)[1..] == a[1..] + b;
      RunSplits(Step(mach, checkHistory, a[0]), checkHistory, a[1..], b);
    }
  }

  /** Every reply that is ever sent for a request is the one the history holds for its key at
      the end of the run, so all replies for a key are the same message. */
  lemma RepliesAgree(mach: Machine, before: seq<Arrival>, a: Arrival, after: seq<Arrival>)
    requires mach.st.core.Shaped() && UniqueKeys(mach.st.history) && Counts(a)
    requires Run(mach, true, before).up
    ensures var here := Run(mach, true, before);
            var final := Run(mach, true, before + [a] + after).st.history;
            match Handle(here.st, true, a.m, a.client, a.env)
            case Halted => true
            case Handled(_, response, _) =>
              var k := Recorded(final, a.m.value.requestID, a.client);
              k < |final| && final[k].response == response
  {
    hide Process, UniqueKeys;
    var here := Run(mach, true, before);
    var next := Step(here, true, a);
    RunSplits(mach, true, before + [a], after);
    RunSplits(mach, true, before, [a]);
    assert [a][1..] == [];
    assert Run(here, true, [a]) == next;
    RunHistory(mach, before);
    StepHistory(here, a);
    RunHistory(next, after);
    var final := Run(next, true, after).st.history;
    match Handle(here.st, true, a.m, a.client, a.env)
    case Halted =>
    case Handled(st, response, _) =>
      var i := Recorded(here.st.history, a.m.value.requestID, a.client);
      assert i < |st.history| && SameKey(st.history[i], a.m.value.requestID, a.client)
             && st.history[i].response == response;
      assert final[i] == st.history[i];
      OnlyOne(final, i, a.m.value.requestID, a.client);
  }

  lemma OnlyOne(history: seq<RequestInfo>, i: nat, id: int32, client: Endpoint)
    requires UniqueKeys(history) && i < |history| && SameKey(history[i], id, client)
    ensures Recorded(history, id, client) == i
  {
    var k := Recorded(history, id, client);
    assert k <= i;
  }

  /** Echoes and datagrams that make no sense change nothing at all. */
  lemma EchoChangesNothing(mach: Machine, checkHistory: bool, a: Arrival)
    requires mach.st.core.Shaped() && !Counts(a)
    ensures Step(mach, checkHistory, a) == mach
  {
  }
}
