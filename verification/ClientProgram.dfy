/** The client's side of a call as a loop over attempts, and why it is the protocol of the
    Network module. */
module ClientProgram {
  import opened Basics
  import opened Primitives
  import opened Messages
  import opened CppSerializer
  import opened ServerModel
  import opened Network
  import opened Text
  import opened DetailsParser
  import opened ReplyTexts

  /** What receiveResponse makes of one attempt: a usable text, nothing, or a null object. */
  datatype Reception = Usable(data: string) | Nothing | Null

  /** None stands for a timeout. */
  function Judge(expectedRequestID: int32, datagram: Option<Bytes>): (r: Reception) {
    match datagram
    case None => Nothing
    case Some(bytes) =>
      match CppDecode(Cut(bytes))
      case Throws => Nothing
      case NullObject => Null
      case Received(m) => if m.requestID != expectedRequestID || m.data == "" then Nothing else Usable(m.data)
  }

  /** How a call ends that gets these answers, one for each attempt that is left, and how many
      attempts it makes. */
  function Conversation(requestID: int32, answers: seq<Option<Bytes>>): (r: (CallResult, nat)) {
    if answers == [] then (GaveUp, 0)
    else
      match Judge(requestID, answers[0])
      case Usable(data) => (Returned(data), 1)
      case Null => (Died, 1)
      case Nothing => (Conversation(requestID, answers[1..]).0, 1 + Conversation(requestID, answers[1..]).1)
  }

  class ClientObject {
    var requestID: int
    var sent: seq<Bytes>

    constructor ()
      ensures requestID == 0 && sent == []
    {
      requestID, sent := 0, [];
    }

    method SendRequest(request: Message, retry: bool)
      requires Sized(request.data)
      modifies this
      ensures requestID == old(requestID) + (if retry then 0 else 1)
      ensures sent == old(sent) + [CppEncode(request)]
    {
      if !retry {
        requestID := requestID + 1;
      }
      var encoder := new Encoder();
      var serializedData := encoder.Serialize(To(0, request));
      sent := sent + [serializedData];
    }

    /** Exceptions are caught and leave the text empty, which triggers a retry. */
    method ReceiveResponse(expectedRequestID: int32, datagram: Option<Bytes>) returns (messageData: string, died: bool)
      ensures died <==> Judge(expectedRequestID, datagram).Null?
      ensures messageData == if Judge(expectedRequestID, datagram).Usable?
              then Judge(expectedRequestID, datagram).data else ""
    {
      hide CppDecode;
      messageData, died := "", false;
      if datagram.None? {
        return;
      }
      var decoder := new Decoder();
      var deserializedObj := decoder.Deserialize(Cut(datagram.value));
      match deserializedObj
      case Throws =>
      case NullObject => died := true;
      case Received(responseMessage) =>
        if responseMessage.requestID != expectedRequestID {
          return;
        }
        messageData := responseMessage.data;
    }

    /** answers: what the network delivers to each attempt. The ID moves on by one per call,
        however many attempts the call makes, and every attempt sends the same bytes. */
    method SendWithRetry(request: Message, answers: seq<Option<Bytes>>) returns (result: CallResult)
      requires |answers| == MAX_RETRIES && Sized(request.data)
      modifies this
      ensures result == Conversation(request.requestID, answers).0
      ensures requestID == old(requestID) + 1
      ensures sent == old(sent) + Copies(CppEncode(request), Conversation(request.requestID, answers).1)
    {
      hide CppEncode, Judge;
      assert answers[0..] == answers;
      for attempt := 0 to MAX_RETRIES
        invariant requestID == old(requestID) + (if attempt > 0 then 1 else 0)
        invariant sent == old(sent) + Copies(CppEncode(request), attempt)
        invariant Conversation(request.requestID, answers).0 == Conversation(request.requestID, answers[attempt..]).0
        invariant Conversation(request.requestID, answers).1
               == attempt + Conversation(request.requestID, answers[attempt..]).1
      {
        SendRequest(request, attempt > 0);
        OneMore(CppEncode(request), attempt);
        assert sent == old(sent) + Copies(CppEncode(request), attempt + 1);
        assert answers[attempt..][0] == answers[attempt] && answers[attempt..][1..] == answers[attempt + 1..];
        var response, died := ReceiveResponse(request.requestID, answers[attempt]);
        UsableNotEmpty(request.requestID, answers[attempt]);
        if died {
          return Died;
        }
        if response != "" {
          return Returned(response);
        }
      }
      return GaveUp;
    }
  }

  function Copies<T>(x: T, n: nat): (r: seq<T>)
    ensures |r| == n && forall i :: 0 <= i < n ==> r[i] == x
  {
    if n == 0 then [] else [x] + Copies(x, n - 1)
  }

  lemma OneMore<T>(x: T, n: nat)
    ensures Copies(x, n) + [x] == Copies(x, n + 1)
  {
  }

  lemma UsableNotEmpty(requestID: int32, datagram: Option<Bytes>)
    ensures Judge(requestID, datagram).Usable? ==> Judge(requestID, datagram).data != ""
  {
    hide CppDecode;
  }

  // ---------- how often the client asks ----------

  /** The first answer that is not nothing decides, and no attempt is made after it. */
  lemma {:induction false} FirstAnswerDecides(requestID: int32, answers: seq<Option<Bytes>>, k: nat)
    requires k < |answers| && forall j :: 0 <= j < k ==> Judge(requestID, answers[j]) == Nothing
    requires Judge(requestID, answers[k]) != Nothing
    ensures Conversation(requestID, answers)
            == (match Judge(requestID, answers[k]) case Usable(data) => Returned(data) case _ => Died, k + 1)
    decreases k
  {
    hide Judge;
    if k > 0 {
      assert forall j :: 0 <= j < k - 1 ==> answers[1..][j] == answers[j + 1];
      FirstAnswerDecides(requestID, answers[1..], k - 1);
    }
  }

  /** Without an answer the client asks five times and gives up. */
  lemma FiveAttempts(requestID: int32, answers: seq<Option<Bytes>>)
    requires |answers| == MAX_RETRIES
    ensures Conversation(requestID, answers) == (GaveUp, 5)
            <==> forall j :: 0 <= j < |answers| ==> Judge(requestID, answers[j]) == Nothing
  {
    hide Judge;
    if forall j :: 0 <= j < |answers| ==> Judge(requestID, answers[j]) == Nothing {
      NoAnswer(requestID, answers);
    } else {
      var k := FirstUsable(requestID, answers, 0);
      FirstAnswerDecides(requestID, answers, k);
    }
  }

  lemma {:induction false} NoAnswer(requestID: int32, answers: seq<Option<Bytes>>)
    requires forall j :: 0 <= j < |answers| ==> Judge(requestID, answers[j]) == Nothing
    ensures Conversation(requestID, answers) == (GaveUp, |answers|)
  {
    hide Judge;
    if answers != [] {
      assert forall j :: 0 <= j < |answers| - 1 ==> answers[1..][j] == answers[j + 1];
      NoAnswer(requestID, answers[1..]);
    }
  }

  lemma FirstUsable(requestID: int32, answers: seq<Option<Bytes>>, from: nat) returns (k: nat)
    requires from <= |answers| && forall j :: 0 <= j < from ==> Judge(requestID, answers[j]) == Nothing
    requires exists j :: 0 <= j < |answers| && Judge(requestID, answers[j]) != Nothing
    ensures k < |answers| && Judge(requestID, answers[k]) != Nothing
    ensures forall j :: 0 <= j < k ==> Judge(requestID, answers[j]) == Nothing
    decreases |answers| - from
  {
    hide Judge;
    if Judge(requestID, answers[from]) != Nothing {
      k := from;
    } else {
      k := FirstUsable(requestID, answers, from + 1);
    }
  }

  /** What the call hands to the parsers; none when the client has died. */
  function ResultText(r: CallResult): (text: Option<string>) {
    match r
    case Returned(data) => Some(data)
    case GaveUp => Some("status:ERROR" + "\nmessage:Request failed after " + PrintInt(MAX_RETRIES) + " attempts.")
    case Died => None
  }

  /** Whatever was asked for, the user is told. */
  lemma GivingUpIsShown()
    ensures var text, shown := ResultText(GaveUp).value, ["Error", "Request failed after 5 attempts."];
            && BookingShown(text) == shown && UpdateShown(text) == shown && DeleteShown(text) == shown
            && MonitorShown(text) == shown && RateShown(text) == shown && RatingShown(text) == shown
            && NamesShown(text) == shown
  {
    hide BookingShown, UpdateShown, DeleteShown, MonitorShown, RateShown, RatingShown, NamesShown;
    GiveUpText();
    ErrorIsShown("Request failed after 5 attempts.");
  }

  lemma GiveUpText()
    ensures ResultText(GaveUp) == Some(ErrorText("Request failed after 5 attempts."))
  {
    hide PrintInt;
    FivePrinted();
    HeadMerged();
    Associate("status:ERROR\nmessage:", "Request failed after ", "5", " attempts.");
    TailMerged();
  }

  lemma FivePrinted()
    ensures PrintInt(MAX_RETRIES) == "5"
  {
  }

  lemma HeadMerged()
    ensures "status:ERROR" + "\nmessage:Request failed after " == "status:ERROR\nmessage:" + "Request failed after "
  {
  }

  lemma TailMerged()
    ensures "Request failed after " + "5" + " attempts." == "Request failed after 5 attempts."
  {
  }

  lemma Associate(a: string, b: string, c: string, d: string)
    ensures a + (b + c + d) == a + b + c + d
  {
  }

  // ---------- the loop is the protocol ----------

  /** The protocol's steps for a waiting client that gets these answers. */
  function Attempts(sys: System, c: Endpoint, answers: seq<Option<Bytes>>): (sys': System)
    requires c in sys.clients
    decreases answers
  {
    hide CppDecode, CppEncode;
    if answers == [] || !sys.clients[c].Waiting() then sys
    else
      match answers[0]
      case None => Attempts(Retry(sys, c), c, answers[1..])
      case Some(bytes) => Attempts(Answer(sys, c, bytes), c, answers[1..])
  }

  /** The waiting call of c has ended in talk.0 after talk.1 attempts, of which the first had
      been sent already; nothing else has happened. */
  predicate Ends(sys: System, sys': System, c: Endpoint, talk: (CallResult, nat))
    requires c in sys.clients && sys.clients[c].Waiting()
  {
    var cl := sys.clients[c];
    && sys'.server == sys.server && sys'.checkHistory == sys.checkHistory && sys'.clients.Keys == sys.clients.Keys
    && (forall d <- sys.clients :: d != c ==> sys'.clients[d] == sys.clients[d])
    && sys'.clients[c].calls == cl.calls && sys'.clients[c].results == cl.results + [talk.0]
    && talk.1 >= 1
    && sys'.net == sys.net + multiset(Copies(Request(c, Current(cl)), talk.1 - 1))
  }

  lemma EndsNow(sys: System, c: Endpoint, r: CallResult)
    requires c in sys.clients && sys.clients[c].Waiting()
    ensures Ends(sys, Finish(sys, c, r), c, (r, 1))
  {
    hide CppEncode, Copies;
    NoneSent(Request(c, Current(sys.clients[c])));
  }

  lemma EndsLater(sys: System, sys': System, c: Endpoint, talk: (CallResult, nat))
    requires c in sys.clients && sys.clients[c].Waiting() && sys.clients[c].attempts < MAX_RETRIES
    requires Retry(sys, c).clients[c].Waiting() && Ends(Retry(sys, c), sys', c, talk)
    ensures Ends(sys, sys', c, (talk.0, talk.1 + 1))
  {
    hide CppEncode, Copies, Retry;
    RetryEffect(sys, c);
    OneMoreSent(Request(c, Current(sys.clients[c])), talk.1);
  }

  /** From any attempt on, the protocol's steps end the call as the loop does, having sent
      what the loop sends. */
  lemma {:induction false} AttemptsConverse(sys: System, c: Endpoint, answers: seq<Option<Bytes>>)
    requires c in sys.clients && sys.clients[c].Waiting()
    requires answers != [] && sys.clients[c].attempts + |answers| == MAX_RETRIES + 1
    ensures Ends(sys, Attempts(sys, c, answers), c, Conversation(Current(sys.clients[c]).requestID, answers))
    decreases answers
  {
    hide Judge, Answer, Retry, Finish, Ends, Attempts, Conversation;
    var id := Current(sys.clients[c]).requestID;
    Decision(sys, c, answers[0]);
    FirstAnswer(sys, c, answers);
    match Judge(id, answers[0])
    case Usable(data) => CallOver(sys, c, Returned(data), answers[1..]);
    case Null => CallOver(sys, c, Died, answers[1..]);
    case Nothing =>
      NextAttempt(sys, c);
      if |answers| > 1 {
        AttemptsConverse(Retry(sys, c), c, answers[1..]);
        EndsLater(sys, Attempts(sys, c, answers), c, Conversation(id, answers[1..]));
      } else {
        CallOver(sys, c, GaveUp, answers[1..]);
      }
  }

  lemma CallOver(sys: System, c: Endpoint, r: CallResult, answers: seq<Option<Bytes>>)
    requires c in sys.clients && sys.clients[c].Waiting()
    ensures c in Finish(sys, c, r).clients
    ensures Attempts(Finish(sys, c, r), c, answers) == Finish(sys, c, r) && Ends(sys, Finish(sys, c, r), c, (r, 1))
  {
    hide Ends;
    Ended(Finish(sys, c, r), c, answers);
    EndsNow(sys, c, r);
  }

  /** The call goes on, with one more attempt made, or the last attempt has been. */
  lemma NextAttempt(sys: System, c: Endpoint)
    requires c in sys.clients && sys.clients[c].Waiting()
    ensures sys.clients[c].attempts >= MAX_RETRIES ==> Retry(sys, c) == Finish(sys, c, GaveUp)
    ensures sys.clients[c].attempts < MAX_RETRIES ==>
              c in Retry(sys, c).clients && Retry(sys, c).clients[c].Waiting()
              && Retry(sys, c).clients[c].attempts == sys.clients[c].attempts + 1
              && Current(Retry(sys, c).clients[c]) == Current(sys.clients[c])
  {
    hide CppEncode;
  }

  lemma FirstAnswer(sys: System, c: Endpoint, answers: seq<Option<Bytes>>)
    requires c in sys.clients && sys.clients[c].Waiting() && answers != []
    ensures var id := Current(sys.clients[c]).requestID;
            && c in (if answers[0].None? then Retry(sys, c) else Answer(sys, c, answers[0].value)).clients
            && Attempts(sys, c, answers)
               == Attempts(if answers[0].None? then Retry(sys, c) else Answer(sys, c, answers[0].value),
                           c, answers[1..])
            && Conversation(id, answers)
               == (match Judge(id, answers[0])
                   case Usable(data) => (Returned(data), 1)
                   case Null => (Died, 1)
                   case Nothing => (Conversation(id, answers[1..]).0, 1 + Conversation(id, answers[1..]).1))
            && Conversation(id, []) == (GaveUp, 0)
  {
    hide CppDecode, CppEncode;
  }

  /** No further step once the call has ended or no answer is left. */
  lemma Ended(sys: System, c: Endpoint, answers: seq<Option<Bytes>>)
    requires c in sys.clients && (answers == [] || !sys.clients[c].Waiting())
    ensures Attempts(sys, c, answers) == sys
  {
  }

  /** One answer: a usable one ends the call, a null object ends the program, anything else
      leads to the next attempt. */
  lemma Decision(sys: System, c: Endpoint, answer: Option<Bytes>)
    requires c in sys.clients && sys.clients[c].Waiting()
    ensures (if answer.None? then Retry(sys, c) else Answer(sys, c, answer.value))
            == match Judge(Current(sys.clients[c]).requestID, answer)
               case Nothing => Retry(sys, c)
               case Null => Finish(sys, c, Died)
               case Usable(data) => Finish(sys, c, Returned(data))
  {
    hide CppDecode, Retry;
  }

  lemma RetryEffect(sys: System, c: Endpoint)
    requires c in sys.clients && sys.clients[c].Waiting()
    ensures var cl := sys.clients[c];
            Retry(sys, c)
            == if cl.attempts < MAX_RETRIES
               then sys.(clients := sys.clients[c := cl.(attempts := cl.attempts + 1)],
                         net := sys.net + multiset{Request(c, Current(cl))})
               else Finish(sys, c, GaveUp)
  {
    hide CppEncode;
  }

  lemma NoneSent(p: Packet)
    ensures multiset(Copies(p, 0)) == multiset{}
  {
  }

  lemma OneMoreSent(p: Packet, n: nat)
    requires n >= 1
    ensures multiset(Copies(p, n)) == multiset{p} + multiset(Copies(p, n - 1))
  {
    assert Copies(p, n) == [p] + Copies(p, n - 1);
  }

  /** A whole call: the protocol's Call step followed by its steps for each answer ends as the
      client's loop ends, and the network has got one copy of the request per attempt. */
  lemma CallIsLoop(sys: System, c: Endpoint, op: int32, data: string, answers: seq<Option<Bytes>>)
    requires sys.server.st.core.Shaped() && Enabled(sys, Call(c, op, data)) && |answers| == MAX_RETRIES
    requires |sys.clients[c].calls| == |sys.clients[c].results|
    ensures var called := Next(sys, Call(c, op, data));
            var m := Message(op, |sys.clients[c].calls|, data);
            var talk := Conversation(m.requestID, answers);
            var end := Attempts(called, c, answers);
            && c in end.clients && end.clients[c].calls == sys.clients[c].calls + [m]
            && end.clients[c].results == sys.clients[c].results + [talk.0]
            && end.net == sys.net + multiset(Copies(Request(c, m), talk.1))
  {
    hide CppEncode, CppDecode, Copies, Conversation, Attempts;
    var called := Next(sys, Call(c, op, data));
    var m := Message(op, |sys.clients[c].calls|, data);
    AttemptsConverse(called, c, answers);
    OneMoreSent(Request(c, m), Conversation(m.requestID, answers).1);
  }
}
