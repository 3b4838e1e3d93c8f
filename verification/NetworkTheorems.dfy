/** What a client may conclude from the way its call ended. */
module NetworkTheorems {
  import opened Basics
  import opened Primitives
  import opened Parity
  import opened ObjectGraph
  import opened GraphCodec
  import opened Bookings
  import opened Messages
  import opened Searching
  import opened ServerModel
  import opened Runs
  import opened AtMostOnce
  import opened Network
  import opened Effects
  import opened InitialState

  // ---------- the invariant ----------

  predicate IsEcho(m: Message) { FromInt(m.requestType) == ECHO }

  /** The call asks for an echo, and these are its own data. */
  predicate Echoes(call: Message, data: string) { IsEcho(call) && call.data == data }

  /** A request longer than this does not fit the server's receive buffer. */
  predicate Fits(m: Message) { |m.data| <= 885 }

  predicate ClientOk(cl: Client) {
    && |cl.results| <= |cl.calls| <= |cl.results| + 1 && |cl.calls| <= 0x7FFF_FFFF
    && forall i :: 0 <= i < |cl.calls| ==>
         cl.calls[i].requestID == i && ByteString(cl.calls[i].data) && Sized(cl.calls[i].data)
  }

  predicate ClientsOk(clients: map<Endpoint, Client>) {
    forall c <- clients :: ClientOk(clients[c])
  }

  /** The datagram carries a call its sender has made. */
  ghost predicate Issued(clients: map<Endpoint, Client>, c: Endpoint, bytes: Bytes) {
    c in clients && exists i :: 0 <= i < |clients[c].calls| && bytes == CppEncode(clients[c].calls[i])
  }

  /** A recorded execution is one of a call that was made, fitted the server's buffer and was
      no echo; its reply is the one for that call. */
  predicate Genuine(clients: map<Endpoint, Client>, r: RequestInfo) {
    && r.client in clients
    && var calls, id := clients[r.client].calls, r.message.requestID;
       && 0 <= id < |calls| && r.message == ToJava(calls[id]) && !IsEcho(calls[id]) && Fits(calls[id])
       && r.response.requestID == id && r.response.data.Some?
  }

  predicate HistoryOk(clients: map<Endpoint, Client>, history: seq<RequestInfo>, checkHistory: bool) {
    (checkHistory ==> UniqueKeys(history)) && forall i :: 0 <= i < |history| ==> Genuine(clients, history[i])
  }

  /** The reply of the execution of call id of client c is data. */
  ghost predicate Replied(history: seq<RequestInfo>, c: Endpoint, id: int, data: string) {
    exists k :: 0 <= k < |history| && history[k].client == c && history[k].message.requestID == id
                && history[k].response.data.Some? && OnWire(history[k].response.data.value) == data
  }

  ghost predicate SomeLong(calls: seq<Message>) {
    exists j :: 0 <= j < |calls| && !Fits(calls[j])
  }

  /** Where a reply can come from: a request that was cut short, an echo, or an execution. */
  ghost predicate Explained(clients: map<Endpoint, Client>, history: seq<RequestInfo>, c: Endpoint, m: Message) {
    && c in clients
    && var calls := clients[c].calls;
       || (m.requestID == 0 && SomeLong(calls))
       || (0 <= m.requestID < |calls| && Echoes(calls[m.requestID], m.data))
       || Replied(history, c, m.requestID, m.data)
  }

  ghost predicate PacketOk(clients: map<Endpoint, Client>, history: seq<RequestInfo>, p: Packet) {
    if p.toServer then Issued(clients, p.client, p.bytes)
    else
      match CppDecode(Cut(p.bytes))
      case Throws => true
      case NullObject => false
      case Received(m) => Explained(clients, history, p.client, m)
  }

  ghost predicate NetOk(clients: map<Endpoint, Client>, history: seq<RequestInfo>, net: multiset<Packet>) {
    forall p <- net :: PacketOk(clients, history, p)
  }

  /** What the end of a call says. */
  ghost predicate ResultOk(calls: seq<Message>, history: seq<RequestInfo>, c: Endpoint, i: nat, r: CallResult)
    requires i < |calls|
  {
    match r
    case GaveUp => true
    case Died => false
    case Returned(data) =>
      data != "" && (Echoes(calls[i], data) || (i == 0 && !Fits(calls[0])) || Replied(history, c, i, data))
  }

  ghost predicate ResultsOk(clients: map<Endpoint, Client>, history: seq<RequestInfo>) {
    forall c <- clients :: ClientResultsOk(clients[c], history, c)
  }

  ghost predicate ClientResultsOk(cl: Client, history: seq<RequestInfo>, c: Endpoint) {
    forall i :: 0 <= i < |cl.results| && i < |cl.calls| ==> ResultOk(cl.calls, history, c, i, cl.results[i])
  }

  ghost predicate Inv(sys: System) {
    && sys.server.st.core.Shaped() && CleanNames(sys.server.st.core.facilities)
    && ClientsOk(sys.clients)
    && HistoryOk(sys.clients, sys.server.st.history, sys.checkHistory)
    && NetOk(sys.clients, sys.server.st.history, sys.net)
    && ResultsOk(sys.clients, sys.server.st.history)
  }

  // ---------- nothing that was explained becomes unexplained ----------

  predicate CallsGrow(clients: map<Endpoint, Client>, clients': map<Endpoint, Client>) {
    && clients.Keys <= clients'.Keys
    && forall c <- clients :: clients[c].calls <= clients'[c].calls
  }

  lemma PacketStays(clients: map<Endpoint, Client>, history: seq<RequestInfo>,
                    clients': map<Endpoint, Client>, history': seq<RequestInfo>, p: Packet)
    requires CallsGrow(clients, clients') && history <= history' && PacketOk(clients, history, p)
    ensures PacketOk(clients', history', p)
  {
    hide CppDecode, CppEncode, OnWire;
    if p.toServer {
      var calls := clients[p.client].calls;
      var i :| 0 <= i < |calls| && p.bytes == CppEncode(calls[i]);
      assert clients'[p.client].calls[i] == calls[i];
    } else if CppDecode(Cut(p.bytes)).Received? {
      ExplainedStays(clients, history, clients', history', p.client, CppDecode(Cut(p.bytes)).m);
    }
  }

  lemma RepliedStays(history: seq<RequestInfo>, history': seq<RequestInfo>, c: Endpoint, id: int, data: string)
    requires history <= history' && Replied(history, c, id, data)
    ensures Replied(history', c, id, data)
  {
    hide OnWire;
    var k :| 0 <= k < |history| && history[k].client == c && history[k].message.requestID == id
             && history[k].response.data.Some? && OnWire(history[k].response.data.value) == data;
    assert history'[k] == history[k];
  }

  lemma ExplainedStays(clients: map<Endpoint, Client>, history: seq<RequestInfo>,
                       clients': map<Endpoint, Client>, history': seq<RequestInfo>, c: Endpoint, m: Message)
    requires CallsGrow(clients, clients') && history <= history' && Explained(clients, history, c, m)
    ensures Explained(clients', history', c, m)
  {
    hide OnWire;
    var calls, calls' := clients[c].calls, clients'[c].calls;
    if Replied(history, c, m.requestID, m.data) {
      RepliedStays(history, history', c, m.requestID, m.data);
    } else if m.requestID == 0 && SomeLong(calls) {
      var j :| 0 <= j < |calls| && !Fits(calls[j]);
      assert calls'[j] == calls[j];
    } else {
      assert calls'[m.requestID] == calls[m.requestID];
    }
  }

  lemma NetStays(clients: map<Endpoint, Client>, history: seq<RequestInfo>,
                 clients': map<Endpoint, Client>, history': seq<RequestInfo>, net: multiset<Packet>)
    requires CallsGrow(clients, clients') && history <= history' && NetOk(clients, history, net)
    ensures NetOk(clients', history', net)
  {
    hide PacketOk, CallsGrow;
    forall p | p in net ensures PacketOk(clients', history', p) {
      PacketStays(clients, history, clients', history', p);
    }
  }

  lemma ResultsStay(clients: map<Endpoint, Client>, history: seq<RequestInfo>, history': seq<RequestInfo>)
    requires history <= history' && ResultsOk(clients, history)
    ensures ResultsOk(clients, history')
  {
    hide OnWire;
    forall c | c in clients ensures ClientResultsOk(clients[c], history', c) {
      var cl := clients[c];
      assert ClientResultsOk(cl, history, c);
      forall i | 0 <= i < |cl.results| && i < |cl.calls| ensures ResultOk(cl.calls, history', c, i, cl.results[i]) {
        assert ResultOk(cl.calls, history, c, i, cl.results[i]);
        if cl.results[i].Returned? && Replied(history, c, i, cl.results[i].data) {
          RepliedStays(history, history', c, i, cl.results[i].data);
        }
      }
    }
  }

  lemma HistoryStays(clients: map<Endpoint, Client>, clients': map<Endpoint, Client>, history: seq<RequestInfo>,
                     checkHistory: bool)
    requires CallsGrow(clients, clients') && HistoryOk(clients, history, checkHistory)
    ensures HistoryOk(clients', history, checkHistory)
  {
    forall i | 0 <= i < |history| ensures Genuine(clients', history[i]) {
      assert Genuine(clients, history[i]);
      var r := history[i];
      assert clients'[r.client].calls[r.message.requestID] == clients[r.client].calls[r.message.requestID];
    }
  }

  // ---------- the steps of a client ----------

  /** A client sends, waits longer or is done: its calls so far are kept. */
  lemma ClientStep(sys: System, sys': System, c: Endpoint)
    requires Inv(sys) && c in sys.clients
    requires sys'.server == sys.server && sys'.checkHistory == sys.checkHistory
    requires c in sys'.clients && sys'.clients == sys.clients[c := sys'.clients[c]]
    requires ClientOk(sys'.clients[c]) && sys.clients[c].calls <= sys'.clients[c].calls
    requires ClientResultsOk(sys'.clients[c], sys.server.st.history, c)
    requires forall p <- sys'.net :: p in sys.net || (p.toServer && Issued(sys'.clients, p.client, p.bytes))
    ensures Inv(sys')
  {
    hide ClientOk, HistoryOk, PacketOk, ClientResultsOk, Issued, CleanNames;
    var h := sys.server.st.history;
    assert CallsGrow(sys.clients, sys'.clients);
    HistoryStays(sys.clients, sys'.clients, h, sys.checkHistory);
    NetStays(sys.clients, h, sys'.clients, h, sys.net);
    forall p | p in sys'.net ensures PacketOk(sys'.clients, h, p) {
      if p !in sys.net {
        IssuedPacket(sys'.clients, h, p);
      }
    }
  }

  lemma IssuedPacket(clients: map<Endpoint, Client>, history: seq<RequestInfo>, p: Packet)
    requires p.toServer && Issued(clients, p.client, p.bytes)
    ensures PacketOk(clients, history, p)
  {
  }

  lemma CallStep(sys: System, c: Endpoint, op: int32, data: string)
    requires Inv(sys) && Enabled(sys, Call(c, op, data))
    ensures Inv(Next(sys, Call(c, op, data)))
  {
    hide HistoryOk, NetOk, CppEncode, CleanNames, Replied;
    var sys' := Next(sys, Call(c, op, data));
    var cl, cl' := sys.clients[c], sys'.clients[c];
    var m := cl'.calls[|cl.calls|];
    assert ClientResultsOk(cl, sys.server.st.history, c);
    assert forall i :: 0 <= i < |cl.results| ==> ResultOk(cl.calls, sys.server.st.history, c, i, cl.results[i]);
    assert Issued(sys'.clients, c, CppEncode(m));
    ClientStep(sys, sys', c);
  }

  lemma RetryStep(sys: System, c: Endpoint)
    requires Inv(sys) && c in sys.clients && sys.clients[c].Waiting()
    ensures Inv(Retry(sys, c))
  {
    hide HistoryOk, NetOk, CppEncode, CleanNames;
    var sys' := Retry(sys, c);
    var cl := sys.clients[c];
    assert ClientResultsOk(cl, sys.server.st.history, c);
    assert cl.calls[|cl.calls| - 1] == Current(cl);
    assert Issued(sys'.clients, c, CppEncode(Current(cl)));
    FinishResults(cl, sys.server.st.history, c, GaveUp);
    ClientStep(sys, sys', c);
  }

  lemma FinishResults(cl: Client, history: seq<RequestInfo>, c: Endpoint, r: CallResult)
    requires cl.Waiting() && ClientResultsOk(cl, history, c)
    requires ResultOk(cl.calls, history, c, |cl.results|, r)
    ensures ClientResultsOk(cl.(results := cl.results + [r]), history, c)
  {
    hide ResultOk;
    forall i | 0 <= i < |cl.results| ensures ResultOk(cl.calls, history, c, i, (cl.results + [r])[i]) {
      assert ResultOk(cl.calls, history, c, i, cl.results[i]);
    }
  }

  lemma ReturnStep(sys: System, c: Endpoint, data: string)
    requires data != "" && Inv(sys) && c in sys.clients && sys.clients[c].Waiting()
    requires Explained(sys.clients, sys.server.st.history, c, Current(sys.clients[c]).(data := data))
    ensures Inv(Finish(sys, c, Returned(data)))
  {
    hide HistoryOk, NetOk, CleanNames, Replied;
    var cl, i := sys.clients[c], |sys.clients[c].results|;
    assert ClientOk(cl) && ClientResultsOk(cl, sys.server.st.history, c);
    assert Current(cl) == cl.calls[i] && Current(cl).requestID == i;
    FinishResults(cl, sys.server.st.history, c, Returned(data));
    ClientStep(sys, Finish(sys, c, Returned(data)), c);
  }

  lemma LessNet(sys: System, net: multiset<Packet>)
    requires Inv(sys) && forall p <- net :: p in sys.net
    ensures Inv(sys.(net := net))
  {
    hide ClientsOk, HistoryOk, PacketOk, ResultsOk, CleanNames;
  }

  lemma ReceiveStep(sys: System, p: Packet)
    requires Inv(sys) && Enabled(sys, Receive(p))
    ensures Inv(Next(sys, Receive(p)))
  {
    hide ClientsOk, HistoryOk, ResultsOk, CleanNames, CppDecode, Explained, Issued, Retry;
    var c, sys1 := p.client, sys.(net := sys.net - multiset{p});
    LessNet(sys, sys.net - multiset{p});
    assert PacketOk(sys.clients, sys.server.st.history, p);
    match CppDecode(Cut(p.bytes))
    case Throws => RetryStep(sys1, c);
    case NullObject =>
    case Received(m) =>
      if m.requestID != Current(sys.clients[c]).requestID || m.data == "" {
        RetryStep(sys1, c);
      } else {
        SameExplanation(sys.clients, sys.server.st.history, c, m, Current(sys.clients[c]).(data := m.data));
        ReturnStep(sys1, c, m.data);
      }
  }

  lemma SameExplanation(clients: map<Endpoint, Client>, history: seq<RequestInfo>, c: Endpoint, m: Message, n: Message)
    requires Explained(clients, history, c, m) && m.requestID == n.requestID && m.data == n.data
    ensures Explained(clients, history, c, n)
  {
  }

  // ---------- the steps of the server ----------

  lemma CarriedSendable(m: RequestMessage)
    requires m.data.Some? ==> Sized(m.data.value)
    ensures Sendable(Carried(m))
  {
  }

  /** The client reads any reply the server manages to encode. */
  lemma ReplyDecodes(m: RequestMessage)
    requires ReplyBytes(m).Some?
    ensures CppDecode(Cut(ReplyBytes(m).value)) == Received(ToCpp(Carried(m)))
  {
    hide Carried, CppDecode, ToCpp, Sealed, WriteObject, LegalClasses, LegalHeap, MessageObject;
    CarriedSendable(m);
    JavaFits(Carried(m));
    CppReadsJava(Carried(m));
  }

  lemma NamesStay(core: Core, m: RequestMessage, client: Endpoint, env: Env)
    requires core.Shaped() && CleanNames(core.facilities) && Process(core, m, client, env).Processed?
    ensures CleanNames(Process(core, m, client, env).core.facilities)
  {
    hide Process, Execute, EffectOf, Clean, IsAvailable;
    ProcessFacilities(core, m, client, env);
    ExecuteApplies(core, m, client, env);
  }

  lemma {:induction false} NoticesForText(ms: seq<Monitor>, name: string, text: string)
    ensures forall n <- NoticesFor(ms, name, text) :: n.text == NoticeText(text)
  {
    if ms != [] {
      NoticesForText(ms[1..], name, text);
    }
  }

  /** Everything the server announces is text the client's decoder throws at. */
  lemma NoticesClean(core: Core, m: RequestMessage, client: Endpoint, env: Env)
    requires core.Shaped() && CleanNames(core.facilities) && Process(core, m, client, env).Processed?
    ensures forall n <- Process(core, m, client, env).notices :: Clean(n.text)
  {
    hide Execute, Clean, NoticeText, Unexpired, DaysText;
    NamesStay(core, m, client, env);
    match Execute(core, m, client, env)
    case Stopped =>
    case Executed(core1, response, updated) =>
      if updated.Some? && Notifies(m) {
        var core2 := core1.(monitors := Unexpired(core1.monitors, env.now));
        var text := AvailabilityText(core2, updated.value, {});
        NoticesForText(core2.monitors, updated.value, text);
        if FacilityIndex(core2.facilities, updated.value) < |core2.facilities| {
          AvailabilityClean(core2, updated.value);
        } else {
          assert MatchesAt(text, "status:ERROR", 0);
        }
      }
  }

  lemma {:induction false} NoticePacketsOk(clients: map<Endpoint, Client>, history: seq<RequestInfo>,
                                               notices: seq<Notice>)
    requires forall n <- notices :: Clean(n.text)
    ensures NetOk(clients, history, NoticePackets(notices))
  {
    hide CppDecode, Clean, Explained;
    if notices != [] {
      CleanNeverDecodes(notices[0].text);
      NoticePacketsOk(clients, history, notices[1..]);
    }
  }

  lemma ReplyPacketsOk(clients: map<Endpoint, Client>, history: seq<RequestInfo>, c: Endpoint, m: RequestMessage)
    requires Explained(clients, history, c, ToCpp(Carried(m)))
    ensures NetOk(clients, history, ReplyPackets(c, m))
  {
    hide CppDecode, Explained, Carried, ReplyBytes;
    if ReplyBytes(m).Some? {
      ReplyDecodes(m);
    }
  }

  /** New state of the server, new packets, everything else as it was. */
  lemma ServerStep(sys: System, sys': System, added: multiset<Packet>)
    requires Inv(sys) && sys'.clients == sys.clients && sys'.checkHistory == sys.checkHistory
    requires sys'.server.st.core.Shaped() && CleanNames(sys'.server.st.core.facilities)
    requires sys.server.st.history <= sys'.server.st.history
    requires HistoryOk(sys.clients, sys'.server.st.history, sys.checkHistory)
    requires NetOk(sys.clients, sys'.server.st.history, added)
    requires forall p <- sys'.net :: p in sys.net || p in added
    ensures Inv(sys')
  {
    hide ClientsOk, HistoryOk, PacketOk, ResultsOk, CleanNames;
    var h, h' := sys.server.st.history, sys'.server.st.history;
    NetStays(sys.clients, h, sys.clients, h', sys.net);
    ResultsStay(sys.clients, h, h');
  }

  lemma JoinNets(clients: map<Endpoint, Client>, history: seq<RequestInfo>, a: multiset<Packet>, b: multiset<Packet>)
    requires NetOk(clients, history, a) && NetOk(clients, history, b)
    ensures NetOk(clients, history, a + b)
  {
  }

  lemma NothingOk(clients: map<Endpoint, Client>, history: seq<RequestInfo>)
    ensures NetOk(clients, history, multiset{})
  {
  }

  /** A datagram that makes no sense to the server was cut short. */
  lemma ServeBad(sys: System, p: Packet, env: Env)
    requires Inv(sys) && p in sys.net && p.toServer && sys.server.up && ArrivalOf(p, env).m.None?
    requires p.client in sys.clients && SomeLong(sys.clients[p.client].calls)
    ensures Inv(ServeOne(sys, p, env))
  {
    hide ClientsOk, HistoryOk, NetOk, ResultsOk, CleanNames, ReplyPackets, SomeLong, Replied, ArrivalOf;
    var h := sys.server.st.history;
    BadExplained(sys.clients, h, p.client);
    ReplyPacketsOk(sys.clients, h, p.client, BAD_REQUEST);
    NoticePacketsOk(sys.clients, h, []);
    JoinNets(sys.clients, h, ReplyPackets(p.client, BAD_REQUEST), NoticePackets([]));
    ServerStep(sys, ServeOne(sys, p, env), ReplyPackets(p.client, BAD_REQUEST) + NoticePackets([]));
  }

  lemma BadExplained(clients: map<Endpoint, Client>, history: seq<RequestInfo>, c: Endpoint)
    requires c in clients && SomeLong(clients[c].calls)
    ensures Explained(clients, history, c, ToCpp(Carried(BAD_REQUEST)))
  {
  }

  lemma EchoExplained(clients: map<Endpoint, Client>, history: seq<RequestInfo>, c: Endpoint, i: nat)
    requires c in clients && i < |clients[c].calls| && clients[c].calls[i].requestID == i && IsEcho(clients[c].calls[i])
    requires ByteString(clients[c].calls[i].data)
    ensures Explained(clients, history, c, ToCpp(Carried(ToJava(clients[c].calls[i]))))
  {
    hide Replied, SomeLong;
    TextRoundTrip(clients[c].calls[i].data);
  }

  lemma RecordExplained(clients: map<Endpoint, Client>, history: seq<RequestInfo>, k: nat)
    requires k < |history| && Genuine(clients, history[k])
    ensures Explained(clients, history, history[k].client, ToCpp(Carried(history[k].response)))
  {
    hide OnWire, SomeLong;
    assert Replied(history, history[k].client, history[k].message.requestID, OnWire(history[k].response.data.value));
  }

  lemma ServeEcho(sys: System, p: Packet, env: Env, i: nat)
    requires Inv(sys) && p in sys.net && p.toServer && sys.server.up && p.client in sys.clients
    requires i < |sys.clients[p.client].calls| && IsEcho(sys.clients[p.client].calls[i])
    requires ArrivalOf(p, env).m == Some(ToJava(sys.clients[p.client].calls[i]))
    ensures Inv(ServeOne(sys, p, env))
  {
    hide HistoryOk, NetOk, ResultsOk, CleanNames, ReplyPackets, Explained, ArrivalOf, Carried, Process;
    var h, m := sys.server.st.history, sys.clients[p.client].calls[i];
    assert ClientOk(sys.clients[p.client]);
    EchoExplained(sys.clients, h, p.client, i);
    ReplyPacketsOk(sys.clients, h, p.client, ToJava(m));
    NoticePacketsOk(sys.clients, h, []);
    JoinNets(sys.clients, h, ReplyPackets(p.client, ToJava(m)), NoticePackets([]));
    ServerStep(sys, ServeOne(sys, p, env), ReplyPackets(p.client, ToJava(m)) + NoticePackets([]));
  }

  /** The history only grows, under either semantics; checking it keeps its keys unique. */
  lemma GrowHistory(mach: Machine, checkHistory: bool, a: Arrival)
    requires mach.st.core.Shaped() && (checkHistory ==> UniqueKeys(mach.st.history))
    ensures mach.st.history <= Step(mach, checkHistory, a).st.history
    ensures checkHistory ==> UniqueKeys(Step(mach, checkHistory, a).st.history)
  {
    hide Process, UniqueKeys;
    if checkHistory {
      StepHistory(mach, a);
    }
  }

  lemma ServeRequest(sys: System, p: Packet, env: Env, i: nat)
    requires Inv(sys) && p in sys.net && p.toServer && sys.server.up && p.client in sys.clients
    requires i < |sys.clients[p.client].calls| && !IsEcho(sys.clients[p.client].calls[i])
    requires Fits(sys.clients[p.client].calls[i])
    requires ArrivalOf(p, env).m == Some(ToJava(sys.clients[p.client].calls[i]))
    ensures Inv(ServeOne(sys, p, env))
  {
    hide NetOk, ResultsOk, CleanNames, ReplyPackets, Explained, DecodeMessage, Arriving, Carried, Process, UniqueKeys,
         NoticePackets;
    var h, m := sys.server.st.history, ToJava(sys.clients[p.client].calls[i]);
    var sys' := ServeOne(sys, p, env);
    assert ClientOk(sys.clients[p.client]);
    GrowHistory(sys.server, sys.checkHistory, ArrivalOf(p, env));
    var k := Recorded(h, m.requestID, p.client);
    if sys.checkHistory && k < |h| {
      assert Genuine(sys.clients, h[k]);
      RecordExplained(sys.clients, h, k);
      ReplyPacketsOk(sys.clients, h, p.client, h[k].response);
      NoticePacketsOk(sys.clients, h, []);
      JoinNets(sys.clients, h, ReplyPackets(p.client, h[k].response), NoticePackets([]));
      ServerStep(sys, sys', ReplyPackets(p.client, h[k].response) + NoticePackets([]));
    } else {
      match Process(sys.server.st.core, m, p.client, env)
      case Crashed =>
        NothingOk(sys.clients, h);
        ServerStep(sys, sys', multiset{});
      case Processed(core, response, notices) =>
        NamesStay(sys.server.st.core, m, p.client, env);
        NoticesClean(sys.server.st.core, m, p.client, env);
        var h' := h + [RequestInfo(m, p.client, response)];
        assert sys'.server.st.history == h';
        assert Genuine(sys.clients, h'[|h|]);
        RecordExplained(sys.clients, h', |h|);
        ReplyPacketsOk(sys.clients, h', p.client, response);
        NoticePacketsOk(sys.clients, h', notices);
        JoinNets(sys.clients, h', ReplyPackets(p.client, response), NoticePackets(notices));
        ServerStep(sys, sys', ReplyPackets(p.client, response) + NoticePackets(notices));
    }
  }

  lemma ServeStep(sys: System, p: Packet, env: Env)
    requires Inv(sys) && Enabled(sys, Serve(p, env))
    ensures Inv(ServeOne(sys, p, env))
  {
    hide HistoryOk, ResultsOk, CleanNames, ReplyPackets, Explained, Process, NoticePackets, CppEncode, DecodeMessage,
         Arriving, ToJava;
    if !sys.server.up {
      LessNet(sys, sys.net - multiset{p});
    } else {
      assert PacketOk(sys.clients, sys.server.st.history, p);
      var calls := sys.clients[p.client].calls;
      var i :| 0 <= i < |calls| && p.bytes == CppEncode(calls[i]);
      assert ClientOk(sys.clients[p.client]);
      RequestUnderstood(calls[i]);
      if !Fits(calls[i]) {
        ServeBad(sys, p, env);
      } else if IsEcho(calls[i]) {
        ServeEcho(sys, p, env, i);
      } else {
        ServeRequest(sys, p, env, i);
      }
    }
  }

  // ---------- every step, every run ----------

  lemma NextInv(sys: System, act: Action)
    requires Inv(sys)
    ensures Inv(Next(sys, act))
  {
    if Enabled(sys, act) {
      hide Inv, ServeOne, Answer, Retry;
      match act
      case Call(c, op, data) => CallStep(sys, c, op, data);
      case Lose(p) => LessNet(sys, sys.net - multiset{p});
      case Duplicate(p) => LessNet(sys, sys.net + multiset{p});
      case Serve(p, env) => ServeStep(sys, p, env);
      case Receive(p) => ReceiveStep(sys, p);
      case Timeout(c) => RetryStep(sys, c);
    }
  }

  lemma {:induction false} EvolveInv(sys: System, acts: seq<Action>)
    requires Inv(sys)
    ensures Inv(Evolve(sys, acts))
    decreases acts
  {
    hide Inv, Next;
    assert sys.server.st.core.Shaped() by { InvShaped(sys); }
    if acts != [] {
      NextInv(sys, acts[0]);
      EvolveInv(Next(sys, acts[0]), acts[1..]);
    }
  }

  lemma InvShaped(sys: System)
    requires Inv(sys)
    ensures sys.server.st.core.Shaped()
  {
  }

  lemma InitialInv(sys: System)
    requires Initial(sys)
    ensures Inv(sys)
  {
  }

  // ---------- what a client knows ----------

  /** How often call i of client c has been executed. */
  function Executions(history: seq<RequestInfo>, c: Endpoint, i: int): (n: nat) {
    if history == [] then 0
    else (if history[0].client == c && history[0].message.requestID == i then 1 else 0) + Executions(history[1..], c, i)
  }

  lemma {:induction false} ExecutedIff(history: seq<RequestInfo>, c: Endpoint, i: int)
    ensures Executions(history, c, i) >= 1
            <==> exists k :: 0 <= k < |history| && history[k].client == c && history[k].message.requestID == i
  {
    if history != [] {
      assert forall k :: 0 <= k < |history| - 1 ==> history[1..][k] == history[k + 1];
      ExecutedIff(history[1..], c, i);
      if exists k :: 0 < k < |history| && history[k].client == c && history[k].message.requestID == i {
        var k :| 0 < k < |history| && history[k].client == c && history[k].message.requestID == i;
        assert history[1..][k - 1].client == c;
      }
    }
  }

  lemma {:induction false} AtMostOneExecution(history: seq<RequestInfo>, c: Endpoint, i: int)
    requires UniqueKeys(history)
    ensures Executions(history, c, i) <= 1
  {
    if history != [] {
      assert forall k :: 0 <= k < |history| - 1 ==> history[1..][k] == history[k + 1];
      AtMostOneExecution(history[1..], c, i);
      ExecutedIff(history[1..], c, i);
      if Executions(history[1..], c, i) >= 1 {
        var k :| 0 <= k < |history| - 1 && history[1..][k].client == c && history[1..][k].message.requestID == i;
        assert history[k + 1].client == c;
      }
    }
  }

  /** An execution of exactly this call, whose reply is data, is on record. */
  ghost predicate RepliedTo(history: seq<RequestInfo>, c: Endpoint, call: Message, data: string) {
    exists k :: 0 <= k < |history| && history[k].client == c && history[k].message == ToJava(call)
                && history[k].response.data.Some? && OnWire(history[k].response.data.value) == data
  }

  /** How a finished call relates to what the server did. An echo that fits returns its own
      data. Any other call that fits
      the server's buffer and returned was executed and got the reply of an execution of
      exactly this call; at most once means exactly once. A longer one is never executed, and
      only a client's first call, whose number the error reply happens to carry, can return
      then. At most once, a call that was given up has been executed at most once. No call
      ends in a null dereference. */
  lemma CallsAreHonest(sys: System, acts: seq<Action>, c: Endpoint, i: nat)
    requires Initial(sys) && c in sys.clients
    ensures var end := Evolve(sys, acts);
            && c in end.clients && end.checkHistory == sys.checkHistory
            && (i < |end.clients[c].results| && i < |end.clients[c].calls| ==>
                  var call := end.clients[c].calls[i];
                  match end.clients[c].results[i]
                  case GaveUp => true
                  case Died => false
                  case Returned(data) => data != "" && (IsEcho(call) && Fits(call) ==> data == call.data))
            && (i < |end.clients[c].results| && i < |end.clients[c].calls| && !IsEcho(end.clients[c].calls[i]) ==>
                  var call, history := end.clients[c].calls[i], end.server.st.history;
                  (sys.checkHistory ==> Executions(history, c, i) <= 1)
                  && match end.clients[c].results[i]
                     case GaveUp => true
                     case Died => false
                     case Returned(data) =>
                       if Fits(call) then Executions(history, c, i) >= 1 && RepliedTo(history, c, call, data)
                       else i == 0 && Executions(history, c, i) == 0)
  {
    hide Next, OnWire, NetOk, ClientsOk, ToJava, CleanNames;
    InitialInv(sys);
    EvolveInv(sys, acts);
    ClientsRemain(sys, acts, c);
    var end := Evolve(sys, acts);
    var history := end.server.st.history;
    ExecutedIff(history, c, i);
    if sys.checkHistory {
      AtMostOneExecution(history, c, i);
    }
    assert ClientResultsOk(end.clients[c], history, c);
    if i < |end.clients[c].results| && i < |end.clients[c].calls| {
      assert ResultOk(end.clients[c].calls, history, c, i, end.clients[c].results[i]);
      forall k | 0 <= k < |history| && history[k].client == c && history[k].message.requestID == i
        ensures Fits(end.clients[c].calls[i]) && history[k].message == ToJava(end.clients[c].calls[i])
      {
        assert Genuine(end.clients, history[k]);
      }
    }
  }

  const BAD_TEXT: string := "status:ERROR\nmessage:Bad request"

  lemma BadRequestReply()
    ensures ReplyBytes(BAD_REQUEST).Some?
    ensures CppDecode(Cut(ReplyBytes(BAD_REQUEST).value)) == Received(Message(0, 0, BAD_TEXT))
  {
    hide CppDecode, WriteObject, LegalClasses, LegalHeap, MessageObject;
    assert Sized(BAD_TEXT) && ByteString(BAD_TEXT);
    TextRoundTrip(BAD_TEXT);
    CarriedSendable(BAD_REQUEST);
    JavaFits(Carried(BAD_REQUEST));
    ReplyDecodes(BAD_REQUEST);
  }

  /** The exception in CallsAreHonest is real: from the program's first state, a client's first
      call, if it does not fit, can return the error reply without having been executed. */
  lemma FirstLongCallReturns(c: Endpoint, op: int32, data: string, env: Env, bad: Bytes, checkHistory: bool)
    requires ByteString(data) && Sized(data) && !Fits(Message(op, 0, data)) && ReplyBytes(BAD_REQUEST) == Some(bad)
    ensures var start := System(map[c := Client([], [], 0)], multiset{}, Machine(ServerState(INITIAL, []), true),
                                checkHistory);
            var request, reply := Request(c, Message(op, 0, data)), Packet(false, c, bad);
            Initial(start)
            && Evolve(start, [Call(c, op, data), Serve(request, env), Receive(reply)])
               == start.(clients := map[c := Client([Message(op, 0, data)], [Returned(BAD_TEXT)], 1)])
  {
    hide Initial, Next, Evolve, INITIAL, CppEncode;
    var clients := map[c := Client([], [], 0)];
    var start := System(clients, multiset{}, Machine(ServerState(INITIAL, []), true), checkHistory);
    var m, request := Message(op, 0, data), Request(c, Message(op, 0, data));
    ProgramStarts(clients, checkHistory);
    assert start.server.st.core.Shaped() by { InitialShaped(start); }
    FirstCall(start, c, op, data);
    var called := start.(clients := map[c := Client([m], [], 1)], net := multiset{request});
    LongServed(called, c, m, env, bad);
    var served := called.(net := multiset{Packet(false, c, bad)});
    BadReceived(served, c, m, bad);
    ThreeSteps(start, Call(c, op, data), Serve(request, env), Receive(Packet(false, c, bad)));
  }

  lemma Overwritten(c: Endpoint, before: Client, after: Client)
    ensures map[c := before][c := after] == map[c := after]
  {
  }

  lemma InitialShaped(sys: System)
    requires Initial(sys)
    ensures sys.server.st.core.Shaped()
  {
  }

  lemma FirstCall(sys: System, c: Endpoint, op: int32, data: string)
    requires sys.server.st.core.Shaped() && sys.clients == map[c := Client([], [], 0)] && sys.net == multiset{}
    requires ByteString(data) && Sized(data)
    ensures var m := Message(op, 0, data);
            Next(sys, Call(c, op, data))
            == sys.(clients := map[c := Client([m], [], 1)], net := multiset{Request(c, m)})
  {
    hide CppEncode;
    var m := Message(op, 0, data);
    assert [] + [m] == [m];
    Overwritten(c, Client([], [], 0), Client([m], [], 1));
    assert multiset{} + multiset{Request(c, m)} == multiset{Request(c, m)};
  }

  lemma LongServed(sys: System, c: Endpoint, m: Message, env: Env, bad: Bytes)
    requires sys.server.st.core.Shaped() && sys.server.up && sys.net == multiset{Request(c, m)}
    requires ByteString(m.data) && Sized(m.data) && !Fits(m) && ReplyBytes(BAD_REQUEST) == Some(bad)
    ensures Next(sys, Serve(Request(c, m), env)) == sys.(net := multiset{Packet(false, c, bad)})
  {
    hide CppEncode, DecodeMessage, Arriving, ReplyBytes, Process;
    RequestUnderstood(m);
    assert sys.net - multiset{Request(c, m)} == multiset{};
    assert NoticePackets([]) == multiset{};
    assert multiset{} + multiset{Packet(false, c, bad)} + multiset{} == multiset{Packet(false, c, bad)};
  }

  lemma BadReceived(sys: System, c: Endpoint, m: Message, bad: Bytes)
    requires sys.server.st.core.Shaped() && sys.net == multiset{Packet(false, c, bad)}
    requires sys.clients == map[c := Client([m], [], 1)] && m.requestID == 0 && ReplyBytes(BAD_REQUEST) == Some(bad)
    ensures Next(sys, Receive(Packet(false, c, bad)))
            == sys.(clients := map[c := Client([m], [Returned(BAD_TEXT)], 1)], net := multiset{})
  {
    hide CppDecode, ReplyBytes;
    BadRequestReply();
    assert sys.net - multiset{Packet(false, c, bad)} == multiset{};
    assert [] + [Returned(BAD_TEXT)] == [Returned(BAD_TEXT)];
    Overwritten(c, Client([m], [], 1), Client([m], [Returned(BAD_TEXT)], 1));
  }

  lemma ThreeSteps(sys: System, a: Action, b: Action, d: Action)
    requires sys.server.st.core.Shaped()
    ensures Evolve(sys, [a, b, d]) == Next(Next(Next(sys, a), b), d)
  {
    hide Next, Evolve;
    assert [a, b, d] == [a] + [b, d] && [b, d] == [b] + [d] && [d] == [d] + [];
    EvolveStep(sys, a, [b, d]);
    EvolveStep(Next(sys, a), b, [d]);
    EvolveStep(Next(Next(sys, a), b), d, []);
    EvolveNone(Next(Next(Next(sys, a), b), d));
  }

  lemma EvolveStep(sys: System, a: Action, rest: seq<Action>)
    requires sys.server.st.core.Shaped()
    ensures Evolve(sys, [a] + rest) == Evolve(Next(sys, a), rest)
  {
    hide Next;
    assert ([a] + rest)[1..] == rest;
  }

  lemma EvolveNone(sys: System)
    requires sys.server.st.core.Shaped()
    ensures Evolve(sys, []) == sys
  {
    hide Next;
  }

  lemma {:induction false} ClientsRemain(sys: System, acts: seq<Action>, c: Endpoint)
    requires sys.server.st.core.Shaped() && c in sys.clients
    ensures c in Evolve(sys, acts).clients && Evolve(sys, acts).checkHistory == sys.checkHistory
    decreases acts
  {
    hide CppDecode, CppEncode, Step, Handle, ReplyPackets, NoticePackets, ArrivalOf;
    if acts != [] {
      ClientsRemain(Next(sys, acts[0]), acts[1..], c);
    }
  }

  // ---------- the network and the executor ----------

  /** What the server has met, in order. */
  function Served(sys: System, acts: seq<Action>): (r: seq<Arrival>)
    requires sys.server.st.core.Shaped()
    decreases acts
  {
    hide Next, ArrivalOf;
    if acts == [] then []
    else
      (if acts[0].Serve? && Enabled(sys, acts[0]) then [ArrivalOf(acts[0].p, acts[0].env)] else [])
      + Served(Next(sys, acts[0]), acts[1..])
  }

  lemma NextServer(sys: System, act: Action)
    requires sys.server.st.core.Shaped()
    ensures Next(sys, act).checkHistory == sys.checkHistory
    ensures Next(sys, act).server
            == if act.Serve? && Enabled(sys, act) then Step(sys.server, sys.checkHistory, ArrivalOf(act.p, act.env))
               else sys.server
  {
    hide Process, CppDecode, CppEncode, ReplyPackets, NoticePackets, ArrivalOf;
  }

  lemma {:induction false} ServerRuns(sys: System, acts: seq<Action>)
    requires sys.server.st.core.Shaped()
    ensures Evolve(sys, acts).server == Run(sys.server, sys.checkHistory, Served(sys, acts))
    decreases acts
  {
    hide Next, Step, ArrivalOf;
    if acts != [] {
      NextServer(sys, acts[0]);
      ServerRuns(Next(sys, acts[0]), acts[1..]);
      var rest := Served(Next(sys, acts[0]), acts[1..]);
      if acts[0].Serve? && Enabled(sys, acts[0]) {
        var a := ArrivalOf(acts[0].p, acts[0].env);
        assert ([a] + rest)[1..] == rest;
      } else {
        assert [] + rest == rest;
      }
    }
  }

  /** At most once: whatever the network does, the server ends up as the executor that runs each distinct
      request once, in order of first arrival. */
  lemma NetworkIsExactlyOnce(sys: System, acts: seq<Action>)
    requires Initial(sys) && sys.checkHistory
    ensures var e := ExecuteAll(sys.server.st.core, Firsts(Served(sys, acts), {}));
            Evolve(sys, acts).server == Machine(ServerState(e.core, e.log), e.up)
  {
    hide Next, Step, Process, Firsts, Served;
    ServerRuns(sys, acts);
    RunIsExactlyOnce(sys.server.st.core, Served(sys, acts));
  }

  /** The program as it starts, with any number of clients, is a first state. */
  lemma ProgramStarts(clients: map<Endpoint, Client>, checkHistory: bool)
    requires forall c <- clients :: clients[c] == Client([], [], 0)
    ensures Initial(System(clients, multiset{}, Machine(ServerState(INITIAL, []), true), checkHistory))
  {
    InitiallyFine(true);
    assert Clean("Weekday1") && Clean("Weekday2") && Clean("Weekends");
  }
}
