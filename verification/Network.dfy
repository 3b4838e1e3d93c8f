/** Clients, network and server together, at the level of bytes. The network may lose,
    duplicate and reorder datagrams but does not change them. */
module Network {
  import opened Basics
  import opened Primitives
  import opened Parity
  import opened Messages
  import opened Text
  import opened TimeSlots
  import opened Bookings
  import opened ServerModel
  import opened Runs

  /** Attempts the client makes before it gives up. */
  const MAX_RETRIES := 5

  /** Size of the client's receive buffer. */
  const CLIENT_BUFFER := 1024

  datatype Packet = Packet(toServer: bool, client: Endpoint, bytes: Bytes)

  /** How sendWithRetry ended. Died: the reply was a null object, which the client would
      dereference. */
  datatype CallResult = Returned(data: string) | GaveUp | Died

  /** All calls a client has made, in order, how the finished ones ended, and how often the
      current one has been sent. The request ID of a call is its position. */
  datatype Client = Client(calls: seq<Message>, results: seq<CallResult>, attempts: nat) {
    predicate Waiting() { |calls| == |results| + 1 }
  }

  /** checkHistory: the server was started with at-most-once semantics. */
  datatype System = System(clients: map<Endpoint, Client>, net: multiset<Packet>, server: Machine, checkHistory: bool)

  datatype Action =
    | Call(c: Endpoint, op: int32, data: string)
    | Lose(p: Packet)
    | Duplicate(p: Packet)
    | Serve(p: Packet, env: Env)
    | Receive(p: Packet)
    | Timeout(c: Endpoint)

  // ---------- the client ----------

  function Current(cl: Client): Message
    requires cl.Waiting()
  {
    cl.calls[|cl.calls| - 1]
  }

  function Request(c: Endpoint, m: Message): Packet { Packet(true, c, CppEncode(m)) }

  /** After an attempt without a usable answer: send again or give up. */
  function Retry(sys: System, c: Endpoint): (sys': System)
    requires c in sys.clients && sys.clients[c].Waiting()
  {
    var cl := sys.clients[c];
    if cl.attempts < MAX_RETRIES then
      sys.(clients := sys.clients[c := cl.(attempts := cl.attempts + 1)],
           net := sys.net + multiset{Request(c, Current(cl))})
    else Finish(sys, c, GaveUp)
  }

  function Finish(sys: System, c: Endpoint, r: CallResult): (sys': System)
    requires c in sys.clients
  {
    sys.(clients := sys.clients[c := sys.clients[c].(results := sys.clients[c].results + [r])])
  }

  /** What the client's socket hands over of a datagram. */
  function Cut(bytes: Bytes): Bytes {
    if |bytes| <= CLIENT_BUFFER then bytes else bytes[..CLIENT_BUFFER]
  }

  /** receiveResponse and the decision in sendWithRetry. */
  function Answer(sys: System, c: Endpoint, bytes: Bytes): (sys': System)
    requires c in sys.clients && sys.clients[c].Waiting()
  {
    match CppDecode(Cut(bytes))
    case Throws => Retry(sys, c)
    case NullObject => Finish(sys, c, Died)
    case Received(m) =>
      if m.requestID != Current(sys.clients[c]).requestID || m.data == "" then Retry(sys, c)
      else Finish(sys, c, Returned(m.data))
  }

  // ---------- the server ----------

  /** The text a string turns into on its way through the Java encoder. */
  function OnWire(s: string): string { DecodeText(EncodeText(s)) }

  function Carried(m: RequestMessage): RequestMessage {
    m.(data := if m.data.None? then None else Some(OnWire(m.data.value)))
  }

  /** The reply datagram, or nothing when it does not fit the encoder's buffer. */
  function ReplyBytes(m: RequestMessage): (r: Option<Bytes>) {
    if m.data.Some? && !Sized(m.data.value) then None
    else EncodeMessage(Carried(m))
  }

  function ReplyPackets(c: Endpoint, m: RequestMessage): multiset<Packet> {
    match ReplyBytes(m)
    case None => multiset{}
    case Some(bytes) => multiset{Packet(false, c, bytes)}
  }

  function NoticePackets(notices: seq<Notice>): multiset<Packet> {
    if notices == [] then multiset{}
    else multiset{Packet(false, notices[0].to, EncodeText(notices[0].text))} + NoticePackets(notices[1..])
  }

  function ArrivalOf(p: Packet, env: Env): Arrival {
    Arrival(DecodeMessage(Arriving(p.bytes)), p.client, env)
  }

  function ServeOne(sys: System, p: Packet, env: Env): (sys': System)
    requires sys.server.st.core.Shaped() && p in sys.net
    ensures sys'.server.st.core.Shaped()
  {
    hide Process;
    var a := ArrivalOf(p, env);
    var net, server := sys.net - multiset{p}, Step(sys.server, sys.checkHistory, a);
    if !sys.server.up then sys.(net := net)
    else
      match Handle(sys.server.st, sys.checkHistory, a.m, a.client, env)
      case Halted => sys.(net := net, server := server)
      case Handled(_, response, notices) =>
        sys.(net := net + ReplyPackets(p.client, response) + NoticePackets(notices), server := server)
  }

  // ---------- steps ----------

  /** What has to hold for an action to be possible. */
  predicate Enabled(sys: System, act: Action) {
    match act
    case Call(c, _, data) =>
      c in sys.clients && !sys.clients[c].Waiting() && |sys.clients[c].calls| < 0x7FFF_FFFF
      && ByteString(data) && Sized(data)
    case Lose(p) => p in sys.net
    case Duplicate(p) => p in sys.net
    case Serve(p, _) => p in sys.net && p.toServer
    case Receive(p) => p in sys.net && !p.toServer && p.client in sys.clients && sys.clients[p.client].Waiting()
    case Timeout(c) => c in sys.clients && sys.clients[c].Waiting()
  }

  /** An action that is not possible changes nothing. */
  function Next(sys: System, act: Action): (sys': System)
    requires sys.server.st.core.Shaped()
    ensures sys'.server.st.core.Shaped()
  {
    if !Enabled(sys, act) then sys
    else
      match act
      case Call(c, op, data) =>
        var m, cl := Message(op, |sys.clients[c].calls|, data), sys.clients[c];
        sys.(clients := sys.clients[c := Client(cl.calls + [m], cl.results, 1)],
             net := sys.net + multiset{Request(c, m)})
      case Lose(p) => sys.(net := sys.net - multiset{p})
      case Duplicate(p) => sys.(net := sys.net + multiset{p})
      case Serve(p, env) => ServeOne(sys, p, env)
      case Receive(p) => Answer(sys.(net := sys.net - multiset{p}), p.client, p.bytes)
      case Timeout(c) => Retry(sys, c)
  }

  function Evolve(sys: System, acts: seq<Action>): (sys': System)
    requires sys.server.st.core.Shaped()
    ensures sys'.server.st.core.Shaped()
    decreases acts
  {
    hide Next;
    if acts == [] then sys else Evolve(Next(sys, acts[0]), acts[1..])
  }

  /** Clients that have not called anybody yet, an empty network, a server without history. */
  predicate Initial(sys: System) {
    && (forall c <- sys.clients :: sys.clients[c] == Client([], [], 0))
    && sys.net == multiset{}
    && sys.server.up && sys.server.st.history == []
    && sys.server.st.core.Shaped() && sys.server.st.core.monitors == []
    && CleanNames(sys.server.st.core.facilities)
  }

  // ---------- notifications ----------

  /** No character of the text is encoded as one of the bytes 0 and 1. */
  predicate Clean(s: string) {
    forall i :: 0 <= i < |s| ==> s[i] > 1 as char
  }

  predicate CleanNames(fs: seq<Facility>) {
    forall i :: 0 <= i < |fs| ==> Clean(fs[i].name)
  }

  lemma SlotClean(slot: TimeSlot)
    ensures Clean(SlotText(slot))
  {
    assert Clean("0") && Clean("-") && Clean(" - ");
  }

  lemma {:induction false} SlotsClean(slots: seq<TimeSlot>)
    ensures Clean(SlotsText(slots))
  {
    if slots != [] {
      SlotClean(slots[0]);
      SlotsClean(slots[1..]);
    }
  }

  lemma {:induction false} DaysClean(c: Calendar, days: seq<Day>, wanted: set<Day>)
    requires c.Shaped()
    ensures Clean(DaysText(c, days, wanted))
  {
    hide FreeSlots, SlotsText;
    if days != [] {
      SlotsClean(FreeSlots(c, days[0]));
      DayRoundTrip(days[0]);
      assert forall i :: 0 <= i < |DayName(days[0])| ==> DayName(days[0])[i] in DayName(days[0]);
      DaysClean(c, days[1..], wanted);
    }
  }

  lemma AvailabilityClean(core: Core, name: string)
    requires core.Shaped() && CleanNames(core.facilities) && FacilityIndex(core.facilities, name) < |core.facilities|
    ensures Clean(NoticeText(AvailabilityText(core, name, {})))
  {
    hide DaysText;
    DaysClean(core.facilities[FacilityIndex(core.facilities, name)].calendar, WEEK, {});
  }

  /** A notification is raw text: however much of it arrives, the client's decoder throws,
      because the last byte is neither 0 nor 1. */
  lemma CleanNeverDecodes(s: string)
    requires Clean(s)
    ensures CppDecode(Cut(EncodeText(s))) == Throws
  {
    var bs := Cut(EncodeText(s));
    if bs != [] {
      PassesIff(bs);
      assert bs[|bs| - 1] == ByteOf(s[|bs| - 1]);
    }
  }
}
