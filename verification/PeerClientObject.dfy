/**
  The signalling client as the object it is: methods that update its fields, with the source's checks
  as assertions. Each method performs the corresponding step of `PeerClient`, so the properties of all
  runs proved there are properties of this object.
 */
module PeerClientObject {
  import opened Text
  import opened HttpFraming
  import opened PeerEntries
  import opened PeerClient

  /** Entering `all` from (p0, c0) ends where entering `rest` from (p, c) does. */
  ghost predicate Reads(p0: Peers, c0: seq<Callback>, all: seq<Entry>, p: Peers, c: seq<Callback>, rest: seq<Entry>) {
    Enter(p, rest) == Enter(p0, all) && c + Announce(rest) == c0 + Announce(all)
  }

  lemma ReadsOne(p0: Peers, c0: seq<Callback>, all: seq<Entry>, p: Peers, c: seq<Callback>, e: Entry, rest: seq<Entry>)
    requires Reads(p0, c0, all, p, c, [e] + rest)
    ensures Reads(p0, c0, all, p[e.id := e.name], c + [PeerConnected(e.id, e.name)], rest)
  {
    assert ([e] + rest)[1..] == rest;
    assert c + ([PeerConnected(e.id, e.name)] + Announce(rest)) == c + [PeerConnected(e.id, e.name)] + Announce(rest);
  }

  lemma ReadsNone(p: Peers, c: seq<Callback>)
    ensures Enter(p, []) == p && c + Announce([]) == c
  {}

  lemma NextEntry(data: string, pos: nat, myId: int)
    ensures var eol := Find(data, "\n", pos);
      BodyEntries(data, pos, myId) ==
        if |data| <= pos || eol == NPOS then []
        else
          var e := ParseEntry(data[pos..eol]);
          (if e.Some? && e.value.id != myId then [e.value] else []) + BodyEntries(data, eol + 1, myId)
  {
    hide ParseEntry, Find;
  }

  class PeerConnectionClient {
    var state: State
    var myId: int
    var peers: Peers
    var controlSocket: Socket
    var hangingGet: Socket
    var onconnectData: string
    var controlData: string
    var notificationData: string
    var clientName: string
    var retries: nat
    /** The calls made on the observer, in order. */
    var calls: seq<Callback>
    ghost var ticket: nat
    ghost var sent: seq<Request>

    ghost function Spec(): Client
      reads this
    {
      Client(state, myId, peers, controlSocket, hangingGet, onconnectData, controlData, notificationData,
             clientName, retries, calls, ticket, sent)
    }

    constructor ()
      ensures Spec() == INIT && Inv(Spec())
    {
      state, myId, peers := NOT_CONNECTED, -1, map[];
      controlSocket, hangingGet, retries, calls, ticket, sent := Closed, Closed, 0, [], 0, [];
      onconnectData, controlData, notificationData, clientName := "", "", "", "";
    }

    method Observe(call: Callback)
      modifies this`calls
      ensures Spec() == Notify(old(Spec()), call)
    {
      calls := calls + [call];
    }

    method Close()
      modifies this
      ensures Spec() == PeerClient.Close(old(Spec()))
    {
      controlSocket := Closed;
      hangingGet := Closed;
      onconnectData := "";
      peers := map[];
      myId := -1;
      state := NOT_CONNECTED;
    }

    method ConnectControlSocket(ok: bool) returns (connected: bool)
      requires controlSocket == Closed
      modifies this
      ensures Spec() == ConnectControl(old(Spec()), ok) && connected == ok
    {
      if !ok {
        Close();
        return false;
      }
      controlSocket, ticket := Connecting, ticket + 1;
      return true;
    }

    method DoConnect(env: Env)
      modifies this
      ensures Spec() == PeerClient.DoConnect(old(Spec()), env)
    {
      controlSocket := Closed;
      hangingGet := Closed;
      onconnectData := SignInRequest(clientName);
      var ok := ConnectControlSocket(env.controlConnects);
      if ok { state := SIGNING_IN; }
      if !ok { Observe(ConnectionFailure); }
    }

    method Connect(server: string, name: string, env: Env)
      requires Inv(Spec())
      modifies this
      ensures Inv(Spec()) && Spec() == ConnectStep(old(Spec()), server, name, env)
    {
      StepKeeps(Spec(), Event.Connect(server, name), env);
      if state != NOT_CONNECTED {
        Observe(ConnectionFailure);
        return;
      }
      if server == "" || name == "" {
        Observe(ConnectionFailure);
        return;
      }
      clientName := name;
      DoConnect(env);
    }

    /** The reconnect timer. */
    method OnRetry(env: Env)
      requires Inv(Spec()) && retries > 0
      modifies this
      ensures Inv(Spec()) && Spec() == Step(old(Spec()), Retry, env)
    {
      StepKeeps(Spec(), Retry, env);
      retries := retries - 1;
      DoConnect(env);
    }

    method SendToPeer(peer: int, message: string, env: Env) returns (ok: bool)
      requires Inv(Spec()) && (state == CONNECTED ==> controlSocket == Closed)
      modifies this
      ensures Inv(Spec()) && Spec() == SendStep(old(Spec()), peer, message, env)
      ensures ok == old(SendSucceeds(Spec(), peer, env))
    {
      hide MessageRequest;
      StepKeeps(Spec(), SendMessage(peer, message), env);
      if state != CONNECTED { return false; }
      assert myId != -1;                  // the check at line 154
      assert controlSocket == Closed;     // the check at line 155
      if myId == -1 || peer == -1 { return false; }
      onconnectData := MessageRequest(myId, peer, message);
      ok := ConnectControlSocket(env.controlConnects);
    }

    method IsSendingMessage() returns (sending: bool)
      ensures sending == IsSending(Spec())
    {
      sending := state == CONNECTED && controlSocket != Closed;
    }

    method SignOut(env: Env) returns (ok: bool)
      modifies this
      ensures Spec() == SignOutStep(old(Spec()), env)
      ensures ok <==> old(state == NOT_CONNECTED) || state != NOT_CONNECTED
      ensures old(Inv(Spec())) ==> Inv(Spec())
    {
      if state == NOT_CONNECTED || state == SIGNING_OUT { return true; }
      if hangingGet != Closed { hangingGet := Closed; }
      if controlSocket == Closed {
        state := SIGNING_OUT;
        if myId != -1 {
          onconnectData := SignOutRequest(myId);
          ok := ConnectControlSocket(env.controlConnects);
          return;
        } else {
          return true;
        }
      } else {
        state := SIGNING_OUT_WAITING;
      }
      return true;
    }

    method OnConnect()
      requires Inv(Spec()) && controlSocket == Connecting
      modifies this
      ensures Inv(Spec()) && Spec() == Step(old(Spec()), ControlConnected, Env(true, true, true, false))
    {
      assert onconnectData != "";         // the check at line 231
      sent := sent + [Request(ticket, onconnectData)];
      controlSocket := Open;
      onconnectData := "";
    }

    method OnHangingGetConnect()
      requires Inv(Spec()) && hangingGet == Connecting
      modifies this
      ensures Inv(Spec()) && Spec() == Step(old(Spec()), HangingConnected, Env(true, true, true, false))
    {
      hangingGet := Open;
    }

    method OnCloseControl(refused: bool, err: int)
      modifies this
      ensures Spec() == ControlCloses(old(Spec()), refused, err)
    {
      controlSocket := Closed;
      if !refused {
        Observe(MessageSent(err));
      } else {
        retries := retries + 1;
      }
    }

    method OnCloseHanging(refused: bool, env: Env)
      modifies this
      ensures Spec() == HangingCloses(old(Spec()), refused, env)
    {
      hangingGet := Closed;
      if !refused {
        if state == CONNECTED { hangingGet := if env.hangingConnects then Connecting else Closed; }
      } else {
        Close();
        Observe(Disconnected);
      }
    }

    /** The Recv loop of ReadIntoBuffer; `packets` is what Recv returns before it would block. */
    method Receive(data: string, packets: seq<string>) returns (buffer: string)
      ensures buffer == data + Concat(packets)
    {
      buffer := data;
      for i := 0 to |packets|
        invariant buffer == data + Concat(packets[..i])
      {
        assert packets[..i + 1][..i] == packets[..i];
        buffer := buffer + packets[i];
      }
      assert packets[..|packets|] == packets;
    }

    method ParseServerResponse(response: string) returns (ok: bool, peerId: int, eoh: nat)
      requires Complete(response)
      modifies this
      ensures ok == (Status(response) == 200)
      ensures Spec() == if ok then old(Spec()) else Notify(PeerClient.Close(old(Spec())), Disconnected)
      ensures HeaderEnd(response) != NPOS && eoh + 4 <= |response|
      ensures ok ==> peerId == PragmaId(response) && eoh == HeaderEnd(response)
    {
      CompleteHasHeaders(response);
      peerId, eoh := -1, 0;
      if Status(response) != 200 {
        Close();
        Observe(Disconnected);
        return false, -1, 0;
      }
      eoh := HeaderEnd(response);
      var pragma := HeaderSize(response, eoh, PRAGMA);
      if pragma.Some? { peerId := ToInt(pragma.value); }
      ok := true;
    }

    /** The loop over the body of the sign-in reply. */
    method ReadPeerList(start: nat)
      modifies this`peers, this`calls
      ensures var entries := BodyEntries(controlData, start, myId);
        peers == Enter(old(peers), entries) && calls == old(calls) + Announce(entries)
    {
      hide Find, ParseEntry, BodyEntries, Enter, Announce;
      ghost var p0, c0 := peers, calls;
      var pos := start;
      while pos < |controlData|
        invariant Reads(p0, c0, BodyEntries(controlData, start, myId),
                        peers, calls, BodyEntries(controlData, pos, myId))
        decreases |controlData| - pos
      {
        NextEntry(controlData, pos, myId);
        var eol := Find(controlData, "\n", pos);
        if eol == NPOS { break; }
        var entry := ParseEntry(controlData[pos..eol]);
        if entry.Some? && entry.value.id != myId {
          ReadsOne(p0, c0, BodyEntries(controlData, start, myId), peers, calls, entry.value,
                   BodyEntries(controlData, eol + 1, myId));
          peers := peers[entry.value.id := entry.value.name];
          calls := calls + [PeerConnected(entry.value.id, entry.value.name)];
        }
        assert [] + BodyEntries(controlData, eol + 1, myId) == BodyEntries(controlData, eol + 1, myId);
        pos := eol + 1;
      }
      NextEntry(controlData, pos, myId);
      ReadsNone(peers, calls);
    }

    method OnRead(packets: seq<string>, env: Env)
      requires Inv(Spec()) && controlSocket == Open
      requires ServerAssignsId(Spec(), ControlRead(Concat(packets)))
      modifies this
      ensures Inv(Spec()) && Spec() == Step(old(Spec()), ControlRead(Concat(packets)), env)
    {
      hide Complete, ShouldClose, HeaderEnd, ContentLength, ControlReply, Concat, Find;
      StepKeeps(Spec(), ControlRead(Concat(packets)), env);
      controlData := Receive(controlData, packets);
      if !Complete(controlData) { return; }
      if ShouldClose(controlData) { OnCloseControl(false, 0); }
      CompleteHasHeaders(controlData);
      ControlReplyKeeps(Spec(), controlData, env);
      HandleControlReply(env);
      controlData := "";
      if state == SIGNING_IN {
        assert hangingGet == Closed;      // the check at line 369
        state := CONNECTED;
        hangingGet := if env.hangingConnects then Connecting else Closed;
      }
    }

    method HandleControlReply(env: Env)
      requires Complete(controlData)
      modifies this
      ensures HeaderEnd(old(controlData)) != NPOS && ContentLength(old(controlData)).Some?
      ensures Spec() == ControlReply(old(Spec()), old(controlData), env)
    {
      hide Complete, ContentLength, Status, BodyEntries, Enter, Announce, Find, SignOutRequest, SignOutStep, PragmaId;
      CompleteHasHeaders(controlData);
      var ok, peerId, eoh := ParseServerResponse(controlData);
      if ok {
        if myId == -1 {
          myId := peerId;
          ReadsNone(peers, calls);
          if ContentLength(controlData).value != 0 { ReadPeerList(eoh + 4); }
          Observe(SignedIn);
        } else if state == SIGNING_OUT {
          Close();
          Observe(Disconnected);
        } else if state == SIGNING_OUT_WAITING {
          var _ := SignOut(env);
        }
      }
    }

    /** OnMessageFromPeer, whose observer may sign out before it returns. */
    method OnMessageFromPeer(peer: int, message: string, env: Env)
      modifies this
      ensures Spec() == if message == BYE then Notify(old(Spec()), PeerDisconnected(peer))
                        else var t := Notify(old(Spec()), MessageFromPeer(peer, message));
                          if env.observerSignsOut then SignOutStep(t, env) else t
    {
      if message == BYE {
        Observe(PeerDisconnected(peer));
      } else {
        Observe(MessageFromPeer(peer, message));
        if env.observerSignsOut { var _ := SignOut(env); }
      }
    }

    method HandleNotification(env: Env)
      requires Complete(notificationData)
      modifies this
      ensures HeaderEnd(old(notificationData)) != NPOS
      ensures HeaderEnd(old(notificationData)) + 4 <= |old(notificationData)|
      ensures Spec() == Notification(old(Spec()), old(notificationData), env)
    {
      hide Complete, ContentLength, Status, Find, SignOutRequest, SignOutStep, PragmaId, ParseEntry;
      CompleteHasHeaders(notificationData);
      var ok, peerId, eoh := ParseServerResponse(notificationData);
      if ok {
        if myId == peerId {
          var entry := ParseEntry(notificationData[eoh + 4..]);
          if entry.Some? {
            if entry.value.connected {
              peers := peers[entry.value.id := entry.value.name];
              Observe(PeerConnected(entry.value.id, entry.value.name));
            } else {
              peers := peers - {entry.value.id};
              Observe(PeerDisconnected(entry.value.id));
            }
          }
        } else {
          OnMessageFromPeer(peerId, notificationData[eoh + 4..], env);
        }
      }
    }

    method OnHangingGetRead(packets: seq<string>, env: Env)
      requires Inv(Spec()) && hangingGet == Open
      modifies this
      ensures Inv(Spec()) && Spec() == Step(old(Spec()), HangingRead(Concat(packets)), env)
    {
      hide Complete, ShouldClose, HeaderEnd, ContentLength, Notification, Inv, Concat, Find;
      StepKeeps(Spec(), HangingRead(Concat(packets)), env);
      notificationData := Receive(notificationData, packets);
      if Complete(notificationData) {
        if ShouldClose(notificationData) { OnCloseHanging(false, env); }
        HandleNotification(env);
        notificationData := "";
      }
      if hangingGet == Closed && state == CONNECTED {
        hangingGet := if env.hangingReconnects then Connecting else Closed;
      }
    }
  }
}
