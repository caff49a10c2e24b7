/**
  The conductor as the object it is, holding its client. Its handlers are proved to perform the steps
  of `Conductor`, with the source's checks as assertions that the session invariant discharges.
 */
module ConductorObject {
  import opened Text
  import opened HttpFraming
  import opened PeerClient
  import opened Conductor
  import opened ConductorProperties
  import opened PeerClientObject

  lemma ConcatOne(data: string)
    ensures Concat([data]) == data
  {
    assert [data][..0] == [];
    assert Concat([]) + data == data;
  }

  lemma HandledSession(s: System, t: System, sent: bool)
    requires Handled(s, t, sent) && SessionInv(s.session)
    ensures SessionInv(t.session)
  {
    hide SessionInv, Queued, WakeUpQueued;
  }

  class ConductorImpl {
    const client: PeerConnectionClient
    var peerId: int
    var loopback: bool
    var peerConnection: bool
    var peerConnectionFactory: bool
    var pendingMessages: seq<string>
    /** Posted to the UI thread and not yet handled. */
    var uiQueue: seq<UiEvent>
    ghost var applied: seq<Applied>
    ghost var signalled: seq<string>
    ghost var handed: seq<string>
    ghost var signalledFor: seq<int>
    ghost var fates: seq<Fate>

    ghost function Held(): Session
      reads this
    {
      Session(peerId, loopback, peerConnection, peerConnectionFactory, pendingMessages, applied)
    }

    ghost function Sys(): System
      reads this, client
    {
      System(client.Spec(), Held(), uiQueue, signalled, handed, signalledFor, fates)
    }

    constructor (client: PeerConnectionClient)
      requires client.Spec() == PeerClient.INIT
      ensures this.client == client && Sys() == START
    {
      this.client := client;
      peerId, loopback, peerConnection, peerConnectionFactory := -1, false, false, false;
      pendingMessages, uiQueue, applied, signalled, handed, signalledFor, fates := [], [], [], [], [], [], [];
    }

    method DeletePeerConnection()
      modifies this
      ensures Sys() == old(Sys()).(session := Conductor.DeletePeerConnection(old(Held())))
    {
      peerConnection := false;
      peerConnectionFactory := false;
      peerId := -1;
      loopback := false;
      applied := [];
    }

    method CreatePeerConnection(created: bool)
      requires peerConnectionFactory && !peerConnection   // the checks at lines 177 and 178
      modifies this`peerConnection
      ensures peerConnection == created
    {
      peerConnection := created;
    }

    method InitializePeerConnection(factoryOk: bool) returns (ok: bool)
      requires !peerConnectionFactory && !peerConnection  // the checks at lines 132 and 133
      modifies this
      ensures Sys() == old(Sys()).(session := Conductor.InitializePeerConnection(old(Held()), factoryOk))
      ensures ok == factoryOk
    {
      peerConnectionFactory := factoryOk;
      if !peerConnectionFactory {
        DeletePeerConnection();
        return false;
      }
      CreatePeerConnection(true);
      return peerConnection;
    }

    method ReinitializePeerConnectionForLoopback(recreated: bool) returns (ok: bool)
      requires peerConnectionFactory && peerConnection
      modifies this
      ensures Sys() == old(Sys()).(session := old(Held()).(loopback := true, connection := recreated))
      ensures ok == recreated
    {
      loopback := true;
      peerConnection := false;
      CreatePeerConnection(recreated);
      return peerConnection;
    }

    method OnMessageFromPeer(peer: int, text: string, kind: MessageKind, factoryOk: bool, env: Env)
      requires SessionInv(Held()) && peer != -1
      modifies this, client
      ensures SessionInv(Held()) && Held() == Conductor.OnMessageFromPeer(old(Held()), peer, text, kind, factoryOk)
      ensures client.Spec() == if SignsOut(old(Held()), peer, kind, factoryOk)
                               then SignOutStep(old(client.Spec()), env) else old(client.Spec())
      ensures uiQueue == old(uiQueue) && signalled == old(signalled) && handed == old(handed)
      ensures signalledFor == old(signalledFor) && fates == old(fates)
    {
      hide SignOutStep;
      var signsOut := HandleMessage(peer, text, kind, factoryOk);
      if signsOut { var _ := client.SignOut(env); }
    }

    /** OnMessageFromPeer up to its SignOut, if it comes to that. */
    method HandleMessage(peer: int, text: string, kind: MessageKind, factoryOk: bool) returns (signsOut: bool)
      requires SessionInv(Held()) && peer != -1
      modifies this
      ensures SessionInv(Held())
      ensures Sys() == old(Sys()).(session := Conductor.OnMessageFromPeer(old(Held()), peer, text, kind, factoryOk))
      ensures signsOut == SignsOut(old(Held()), peer, kind, factoryOk)
    {
      OnMessageFromPeerKeeps(Held(), peer, text, kind, factoryOk);
      if !peerConnection {
        assert peerId == -1;              // the check at line 297
        peerId := peer;
        var ok := InitializePeerConnection(factoryOk);
        if !ok { return true; }
      } else if peer != peerId {
        assert peerId != -1;              // the check at line 306
        return false;
      }
      signsOut := ApplyMessage(peer, text, kind);
    }

    /** What OnMessageFromPeer does with a message of the present session. */
    method ApplyMessage(peer: int, text: string, kind: MessageKind) returns (signsOut: bool)
      requires peerConnectionFactory && peerConnection
      modifies this
      ensures Sys() == old(Sys()).(session := OnMessage(old(Held()), peer, text, kind))
      ensures signsOut == (kind.OfferLoopback? && !kind.recreated)
    {
      signsOut := false;
      match kind
      case Unparsable =>
      case OfferLoopback(recreated) =>
        var ok := ReinitializePeerConnectionForLoopback(recreated);
        if !ok {
          DeletePeerConnection();
          signsOut := true;
        }
      case Rejected =>
      case Description(_) => applied := applied + [Applied(peer, text)];
      case Candidate(accepted) => if accepted { applied := applied + [Applied(peer, text)]; }
    }

    method OnMessageSent(err: int, ch: Choice)
      modifies this`uiQueue
      ensures Sys() == Observe(old(Sys()), MessageSent(err), ch)
    {
      uiQueue := uiQueue + [Send(None)];
    }

    method OnDisconnected(ch: Choice)
      modifies this
      ensures Sys() == Observe(old(Sys()), Disconnected, ch)
    {
      DeletePeerConnection();
    }

    method OnPeerDisconnected(id: int, ch: Choice)
      modifies this`uiQueue
      ensures Sys() == Observe(old(Sys()), PeerDisconnected(id), ch)
    {
      if id == peerId { uiQueue := uiQueue + [ConnectionClosed(id)]; }
    }

    /** OnAddTrack and OnRemoveTrack leave the renderers to the UI thread. */
    method OnTrackChanged(ch: Choice)
      modifies this`uiQueue
      ensures Sys() == Act(old(Sys()), TrackChanged, ch)
    {
      uiQueue := uiQueue + [Track];
    }

    /** One call of the client on its observer. A sign-out it leads to has been made by the client's step. */
    method Handle(call: Callback, ch: Choice)
      requires SessionInv(Held()) && (call.MessageFromPeer? ==> call.id != -1)
      modifies this
      ensures Sys() == Observe(old(Sys()), call, ch)
    {
      match call
      case MessageSent(err) => OnMessageSent(err, ch);
      case Disconnected => OnDisconnected(ch);
      case PeerDisconnected(id) => OnPeerDisconnected(id, ch);
      case MessageFromPeer(id, text) => var _ := HandleMessage(id, text, ch.kind, ch.factoryOk);
      case _ =>
    }

    /** The calls the client made from position `from` on. */
    method HandleCalls(from: nat, ch: Choice)
      requires from <= |client.calls| && SessionInv(Held()) && Known(client.calls[from..])
      modifies this
      ensures Sys() == ObserveAll(old(Sys()), client.calls[from..], ch)
    {
      hide Observe, SessionInv, Handled;
      ghost var s, calls := Sys(), client.calls[from..];
      for k := 0 to |client.calls| - from
        invariant SessionInv(Held()) && client.calls[from..] == calls
        invariant Sys() == ObserveAll(s, calls[..k], ch)
      {
        assert calls[..k + 1][..k] == calls[..k] && calls[..k + 1][k] == calls[k] == client.calls[from + k];
        ObserveAllHandled(s, calls[..k + 1], ch);
        HandledSession(s, ObserveAll(s, calls[..k + 1], ch), HasSent(calls[..k + 1]));
        Handle(client.calls[from + k], ch);
      }
      assert calls[..|calls|] == calls;
    }

    /** A socket event: the client handles it and its calls arrive here. */
    method OnSocket(e: Event, ch: Choice)
      requires SystemInv(Sys()) && CanAct(Sys(), Socket(e))
      modifies this, client
      ensures Sys() == Act(old(Sys()), Socket(e), ch)
    {
      ghost var s := Sys();
      var before := |client.calls|;
      ghost var env := ch.env.(observerSignsOut := SignsOut(s.session, Sender(s.client, e), ch.kind, ch.factoryOk));
      ClientReports(s.client, e, env);
      ClientEvent(e, ch);
      hide Inv, SessionInv, PeerClient.Step, Enabled, ServerAssignsId, ObserveAll, SignsOut, Sender, Queued, Known;
      HandleCalls(before, ch);
    }

    /** The client's part of a socket event; it signs out when this conductor is going to. */
    method ClientEvent(e: Event, ch: Choice)
      requires SystemInv(Sys()) && CanAct(Sys(), Socket(e))
      modifies client
      ensures
        var env := ch.env.(observerSignsOut := SignsOut(Held(), Sender(old(client.Spec()), e), ch.kind, ch.factoryOk));
        client.Spec() == PeerClient.Step(old(client.Spec()), e, env)
    {
      hide Queued, ControlReads, HangingReads, HangingCloses, ControlCloses, PragmaId, HeaderEnd;
      var sender := -1;
      if e.HangingRead? {
        var d := client.notificationData + e.data;
        if HeaderEnd(d) != NPOS { sender := PragmaId(d); }
      }
      var session := Session(peerId, loopback, peerConnection, peerConnectionFactory, pendingMessages, []);
      var env := ch.env.(observerSignsOut := SignsOut(session, sender, ch.kind, ch.factoryOk));
      assert env.observerSignsOut == SignsOut(Held(), Sender(client.Spec(), e), ch.kind, ch.factoryOk);
      hide SignsOut, Sender, SessionInv;
      match e
      case ControlConnected => client.OnConnect();
      case ControlRead(data) =>
        ConcatOne(data);
        client.OnRead([data], env);
      case ControlClosed(refused, err) => client.OnCloseControl(refused, err);
      case HangingConnected => client.OnHangingGetConnect();
      case HangingRead(data) =>
        ConcatOne(data);
        client.OnHangingGetRead([data], env);
      case HangingClosed(refused) => client.OnCloseHanging(refused, env);
      case Retry => client.OnRetry(env);
    }

    method ConnectToPeer(peer: int, ch: Choice)
      requires SessionInv(Held()) && peer != -1
      modifies this
      ensures SessionInv(Held()) && Sys() == Act(old(Sys()), UserConnects(peer), ch)
    {
      ConnectToPeerKeeps(Held(), peer, ch.factoryOk);
      if peerConnection { return; }
      var ok := InitializePeerConnection(ch.factoryOk);
      if ok { peerId := peer; }
    }

    method StartLogin(server: string, name: string, ch: Choice)
      requires Inv(client.Spec())
      modifies client
      ensures Sys() == Act(old(Sys()), Conductor.StartLogin(server, name), ch)
    {
      if client.myId != -1 { return; }
      ghost var s := Sys();
      hide Deliver, SignInRequest, Inv;
      client.Connect(server, name, ch.env);
      if client.calls == s.client.calls { DeliverNothing(s, client.Spec(), ch); }
      else { DeliverFailure(s, client.Spec(), ch); }
    }

    /** The main window is closing. */
    method Close(ch: Choice)
      modifies this, client
      ensures Sys() == Act(old(Sys()), CloseWindow, ch)
    {
      ghost var s := Sys();
      SignOutReports(client.Spec(), ch.env);
      hide SignOutStep, Deliver;
      var _ := client.SignOut(ch.env);
      DeliverNothing(s, client.Spec(), ch);
      DeletePeerConnection();
    }

    method DisconnectFromServer(ch: Choice)
      modifies client
      ensures Sys() == Disconnect(old(Sys()), ch)
    {
      if client.myId != -1 {
        ghost var s := Sys();
        SignOutReports(client.Spec(), ch.env);
        hide SignOutStep, Deliver;
        var _ := client.SignOut(ch.env);
        DeliverNothing(s, client.Spec(), ch);
      }
    }

    method DisconnectFromCurrentPeer(ch: Choice)
      requires Inv(client.Spec()) && CanAct(Sys(), Conductor.DisconnectFromCurrentPeer)
      modifies this, client
      ensures Sys() == Act(old(Sys()), Conductor.DisconnectFromCurrentPeer, ch)
    {
      if peerConnection {
        ghost var s := Sys();
        SendReports(client.Spec(), peerId, BYE, ch.env);
        hide SendStep, Deliver;
        var _ := client.SendToPeer(peerId, BYE, ch.env);
        DeliverNothing(s, client.Spec(), ch);
        DeletePeerConnection();
      }
    }

    method SendMessage(message: string, ch: Choice)
      requires !loopback
      modifies this
      ensures Sys() == Act(old(Sys()), Signal(message), ch)
    {
      signalled, signalledFor := signalled + [message], signalledFor + [peerId];
      uiQueue := uiQueue + [Send(Some(message))];
    }

    /** Hands the first pending message to the client, which must not be sending. */
    method SendFirstPending(ch: Choice)
      requires Inv(client.Spec()) && pendingMessages != [] && !IsSending(client.Spec())
      modifies this, client
      ensures Sys() == HandOver(old(Sys()), ch)
    {
      var message := pendingMessages[0];
      pendingMessages := pendingMessages[1..];
      handed := handed + [message];
      fates := fates + [if SendSucceeds(client.Spec(), peerId, ch.env) then GivenTo(peerId) else Dropped];
      ghost var s := Sys();
      SendReports(client.Spec(), peerId, message, ch.env);
      hide SendStep, Deliver, SignOutStep;
      var sent := client.SendToPeer(peerId, message, ch.env);
      DeliverNothing(s, client.Spec(), ch);
      if !sent && peerId != -1 { DisconnectFromServer(ch); }
    }

    /** The UI thread takes the next posted event: UIThreadCallback. */
    method UIThreadCallback(ch: Choice)
      requires Inv(client.Spec()) && uiQueue != []
      modifies this, client
      ensures Sys() == UiStep(old(Sys()), ch)
    {
      hide HandOver, Deliver, Disconnect;
      var event := uiQueue[0];
      uiQueue := uiQueue[1..];
      match event
      case ConnectionClosed(_) =>
        DeletePeerConnection();
        if !ch.window { DisconnectFromServer(ch); }
      case Send(message) =>
        if message.Some? { pendingMessages := pendingMessages + [message.value]; }
        var sending := client.IsSendingMessage();
        if pendingMessages != [] && !sending { SendFirstPending(ch); }
        if !peerConnection { peerId := -1; }
      case Track =>
    }
  }
}
