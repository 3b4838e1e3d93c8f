/** The server's two lists, updated in place: executed requests and registered monitors. */
module Services {
  import opened Basics
  import opened ServerModel

  class RequestHistory {
    var requestHistory: seq<RequestInfo>

    constructor ()
      ensures requestHistory == []
    {
      requestHistory := [];
    }

    method AddRequest(request: RequestInfo)
      modifies this
      ensures requestHistory == old(requestHistory) + [request]
    {
      requestHistory := requestHistory + [request];
    }

    method ContainsRequest(requestID: int32, client: Endpoint) returns (found: Option<RequestInfo>)
      ensures var i := Recorded(requestHistory, requestID, client);
              found == if i < |requestHistory| then Some(requestHistory[i]) else None
    {
      for i := 0 to |requestHistory|
        invariant forall j :: 0 <= j < i ==> !SameKey(requestHistory[j], requestID, client)
      {
        var r := requestHistory[i];
        if r.message.requestID == requestID && r.client.address == client.address && r.client.port == client.port {
          FirstRecorded(requestHistory, requestID, client, i);
          return Some(r);
        }
      }
      return None;
    }
  }

  lemma FirstRecorded(history: seq<RequestInfo>, id: int32, client: Endpoint, i: nat)
    requires i < |history| && SameKey(history[i], id, client)
    requires forall j :: 0 <= j < i ==> !SameKey(history[j], id, client)
    ensures Recorded(history, id, client) == i
  {
    assert !(i < Recorded(history, id, client));
  }

  class MonitorService {
    var monitors: seq<Monitor>

    constructor ()
      ensures monitors == []
    {
      monitors := [];
    }

    method RegisterMonitor(monitor: Monitor)
      modifies this
      ensures monitors == old(monitors) + [monitor]
    {
      monitors := monitors + [monitor];
    }

    /** Keeps the unexpired monitors, in order, and says whether any were dropped. */
    method RemoveExpiredMonitors(now: int) returns (removed: bool)
      modifies this
      ensures monitors == Unexpired(old(monitors), now)
      ensures removed <==> exists m :: m in old(monitors) && Expired(m, now)
    {
      var all, kept := monitors, [];
      removed := false;
      for i := 0 to |all|
        invariant monitors == all
        invariant kept == Unexpired(all[..i], now)
        invariant removed <==> exists m :: m in all[..i] && Expired(m, now)
      {
        UnexpiredStep(all[..i], all[i], now);
        assert all[..i + 1] == all[..i] + [all[i]];
        if Expired(all[i], now) {
          assert all[i] in all[..i + 1];
          removed := true;
        } else {
          kept := kept + [all[i]];
        }
      }
      assert all[..|all|] == all;
      monitors := kept;
    }

    /** One datagram to every monitor of the facility, in order of registration. */
    method NotifyAll(facilityName: string, message: string) returns (sent: seq<Notice>)
      ensures sent == NoticesFor(monitors, facilityName, message)
      ensures forall k :: 0 <= k < |sent| ==> sent[k].text == "RequestMessage: 0 0 " + message
    {
      sent := [];
      for i := 0 to |monitors|
        invariant sent == NoticesFor(monitors[..i], facilityName, message)
        invariant forall k :: 0 <= k < |sent| ==> sent[k].text == "RequestMessage: 0 0 " + message
      {
        NoticesStep(monitors[..i], monitors[i], facilityName, message);
        assert monitors[..i + 1] == monitors[..i] + [monitors[i]];
        if monitors[i].resourceName != facilityName {
          continue;
        }
        sent := sent + [Notice(monitors[i].client, NoticeText(message))];
      }
      assert monitors[..|monitors|] == monitors;
    }
  }

  lemma {:induction false} UnexpiredStep(ms: seq<Monitor>, m: Monitor, now: int)
    ensures Unexpired(ms + [m], now) == Unexpired(ms, now) + if Expired(m, now) then [] else [m]
  {
    if ms == [] {
      assert ms + [m] == [m];
    } else {
      assert (ms + [m])[1..] == ms[1..] + [m];
      UnexpiredStep(ms[1..], m, now);
    }
  }

  lemma {:induction false} NoticesStep(ms: seq<Monitor>, m: Monitor, name: string, text: string)
    ensures NoticesFor(ms + [m], name, text)
            == NoticesFor(ms, name, text) + if m.resourceName == name then [Notice(m.client, NoticeText(text))] else []
  {
    hide NoticeText;
    if ms == [] {
      assert ms + [m] == [m];
    } else {
      assert (ms + [m])[1..] == ms[1..] + [m];
      NoticesStep(ms[1..], m, name, text);
    }
  }
}
