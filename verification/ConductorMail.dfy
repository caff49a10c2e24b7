/**
  What the conductor's queues do across sessions. Messages and posted closes name no peer in the code, so
  they meet whatever session exists when their turn comes: exactly when a message is dropped, when it
  reaches a stranger, and when a close ends the wrong session.
 */
module ConductorMail {
  import opened PeerClient
  import opened Conductor
  import opened ConductorProperties
  import opened ConductorRuns

  // ---------------------------------------------------------------- what a turn does to the messages

  predicate Logged(s: System) {
    |s.signalledFor| == |s.signalled| && |s.fates| == |s.handed| && |s.handed| <= |s.signalled|
  }

  /** What a turn does to the messages: signal one, hand the oldest over, or neither. */
  lemma MailMoves(s: System, a: Action, ch: Choice)
    requires SystemInv(s) && CanAct(s, a)
    ensures var t := Act(s, a, ch);
      if a.Signal? && !s.session.loopback then
        && t.signalled == s.signalled + [a.message] && t.signalledFor == s.signalledFor + [s.session.peerId]
        && t.handed == s.handed && t.fates == s.fates && t.session == s.session
      else if HandsOver(s, a) then HandedOne(s, t, ch)
      else SameMail(s, t)
  {
    hide Inv, SessionInv, Deliver, Disconnect, SendTurn, HandOver, SocketStep, ConnectStep, SendStep, SignOutStep;
    match a
    case Socket(e) => SocketKeeps(s, e, ch);
    case StartLogin(server, name) => LoginKeeps(s, server, name, ch);
    case DisconnectFromServer => DisconnectIs(s, ch);
    case DisconnectFromCurrentPeer => HangUpKeeps(s, ch);
    case CloseWindow => CloseKeeps(s, ch);
    case UiTurn => UiTurnMail(s, ch);
    case _ =>
  }

  /** The oldest outstanding message was handed over; the session kept its peer. */
  predicate HandedOne(s: System, t: System, ch: Choice) {
    && t.signalled == s.signalled && t.signalledFor == s.signalledFor && |s.handed| < |s.signalled|
    && t.handed == s.handed + [s.signalled[|s.handed|]] && t.fates == s.fates + [FateOf(s, ch)]
    && t.session.peerId == s.session.peerId
  }

  lemma UiTurnMail(s: System, ch: Choice)
    requires SystemInv(s) && s.queue != []
    ensures var t := UiStep(s, ch); if HandsOver(s, UiTurn) then HandedOne(s, t, ch) else SameMail(s, t)
  {
    hide Inv, SessionInv, Disconnect, SendTurn, HandOver, Queued, SendSucceeds;
    var t := s.(queue := s.queue[1..]);
    match s.queue[0]
    case ConnectionClosed(_) => DisconnectIs(t.(session := DeletePeerConnection(t.session)), ch);
    case Track =>
    case Send(message) =>
      QueuedHead(s.queue);
      SendTurnIs(t, message, ch);
      var waiting := Waiting(t, message);
      assert waiting == Waiting(s, message);
      if HandsOver(s, UiTurn) {
        HandOverIs(t.(session := t.session.(pending := waiting)), ch);
        FirstWaiting(s.handed, s.session.pending, if message.Some? then [message.value] else [], Queued(t.queue));
        assert s.session.pending + [] == s.session.pending;
      }
  }

  lemma FirstWaiting(handed: seq<string>, pending: seq<string>, more: seq<string>, queued: seq<string>)
    requires pending + more != []
    ensures var all := handed + pending + (more + queued);
      |handed| < |all| && all[|handed|] == (pending + more)[0]
  {}

  lemma TurnIsLogged(s: System, a: Action, ch: Choice)
    requires SystemInv(s) && CanAct(s, a) && Logged(s)
    ensures Logged(Act(s, a, ch))
  {
    MailMoves(s, a, ch);
    hide SystemInv, Act, CanAct, HandsOver, FateOf;
  }

  lemma {:induction false} RunIsLogged(s: System, run: seq<Turn>)
    requires SystemInv(s) && CanPlay(s, run) && Logged(s)
    ensures Logged(Play(s, run))
    decreases |run|
  {
    hide SystemInv, Act, CanAct, Logged;
    if run != [] {
      ActKeeps(s, run[0].action, run[0].choice);
      TurnIsLogged(s, run[0].action, run[0].choice);
      RunIsLogged(Act(s, run[0].action, run[0].choice), run[1..]);
    }
  }

  // ---------------------------------------------------------------- dropped, stray, delivered

  /** SendToPeer accepted every message handed over so far. */
  predicate NoneDropped(s: System) {
    forall k :: 0 <= k < |s.fates| ==> s.fates[k].GivenTo?
  }

  /** No message was accepted for another peer than it was signalled for. */
  predicate NoneStray(s: System) {
    Logged(s) && forall k :: 0 <= k < |s.fates| && s.fates[k].GivenTo? ==> s.fates[k].peer == s.signalledFor[k]
  }

  /** Every message handed over so far was accepted for the peer it was signalled for. */
  predicate Delivered(s: System) {
    Logged(s) && forall k :: 0 <= k < |s.fates| ==> s.fates[k] == GivenTo(s.signalledFor[k])
  }

  lemma DeliveredMeans(s: System)
    ensures Logged(s) ==> (Delivered(s) <==> NoneDropped(s) && NoneStray(s))
  {}

  /** The turn hands a message over while the client is not connected, there is no peer, or the connect fails. */
  predicate Drops(s: System, a: Action, ch: Choice) {
    && HandsOver(s, a)
    && (s.client.state != CONNECTED || s.client.myId == -1 || s.session.peerId == -1 || !ch.env.controlConnects)
  }

  /** The turn has a message accepted while the session is with another peer than it was signalled for. */
  predicate Strays(s: System, a: Action, ch: Choice) {
    && HandsOver(s, a) && !Drops(s, a, ch)
    && |s.handed| < |s.signalledFor| && s.signalledFor[|s.handed|] != s.session.peerId
  }

  /** One turn keeps each property if and only if it is not of the one kind that breaks it. */
  lemma DeliveryIff(s: System, a: Action, ch: Choice)
    requires SystemInv(s) && CanAct(s, a) && Logged(s)
    ensures NoneDropped(Act(s, a, ch)) <==> NoneDropped(s) && !Drops(s, a, ch)
    ensures NoneStray(Act(s, a, ch)) <==> NoneStray(s) && !Strays(s, a, ch)
    ensures Delivered(Act(s, a, ch)) <==> Delivered(s) && !Drops(s, a, ch) && !Strays(s, a, ch)
  {
    MailMoves(s, a, ch);
    TurnIsLogged(s, a, ch);
    var t := Act(s, a, ch);
    hide SystemInv, Act, CanAct;
    DeliveredMeans(s);
    DeliveredMeans(t);
    SignalsDoNotHandOver(s, a);
    hide Delivered, HandsOver;
    if HandsOver(s, a) {
      FatesGrow(s, t, FateOf(s, ch));
    } else {
      assert t.fates == s.fates;
      assert forall k :: 0 <= k < |s.fates| && Logged(s) ==> t.signalledFor[k] == s.signalledFor[k];
    }
  }

  lemma SignalsDoNotHandOver(s: System, a: Action)
    ensures a.Signal? ==> !HandsOver(s, a)
  {}

  lemma FatesGrow(s: System, t: System, fate: Fate)
    requires Logged(s) && Logged(t) && t.fates == s.fates + [fate] && t.signalledFor == s.signalledFor
    requires |s.handed| < |s.signalled|
    ensures NoneDropped(t) <==> NoneDropped(s) && fate.GivenTo?
    ensures NoneStray(t) <==> NoneStray(s) && (fate.GivenTo? ==> fate.peer == s.signalledFor[|s.handed|])
  {
    assert forall k :: 0 <= k < |s.fates| ==> t.fates[k] == s.fates[k];
    assert t.fates[|s.fates|] == fate;
  }

  predicate EverDrops(s: System, run: seq<Turn>)
    requires CanPlay(s, run)
    decreases |run|
  {
    && run != []
    && (|| Drops(s, run[0].action, run[0].choice)
        || EverDrops(Act(s, run[0].action, run[0].choice), run[1..]))
  }

  predicate EverStrays(s: System, run: seq<Turn>)
    requires CanPlay(s, run)
    decreases |run|
  {
    && run != []
    && (|| Strays(s, run[0].action, run[0].choice)
        || EverStrays(Act(s, run[0].action, run[0].choice), run[1..]))
  }

  lemma {:induction false} DeliveriesOfRun(s: System, run: seq<Turn>)
    requires SystemInv(s) && CanPlay(s, run) && Logged(s)
    ensures NoneDropped(Play(s, run)) <==> NoneDropped(s) && !EverDrops(s, run)
    ensures NoneStray(Play(s, run)) <==> NoneStray(s) && !EverStrays(s, run)
    ensures Delivered(Play(s, run)) <==> Delivered(s) && !EverDrops(s, run) && !EverStrays(s, run)
    decreases |run|
  {
    hide SystemInv, Act, CanAct, Logged, Delivered, NoneDropped, NoneStray, Drops, Strays;
    if run != [] {
      var a, ch := run[0].action, run[0].choice;
      ActKeeps(s, a, ch);
      TurnIsLogged(s, a, ch);
      DeliveryIff(s, a, ch);
      DeliveriesOfRun(Act(s, a, ch), run[1..]);
    }
  }

  /**
    Over every run: no message is dropped if and only if every hand-over finds a connected client, a peer
    and a connect that works; none is accepted for a stranger if and only if no hand-over that finds these
    takes place while the session is with another peer; and every message is accepted for its own peer if
    and only if both hold.
   */
  lemma MessagesReachTheirPeerIff(run: seq<Turn>)
    requires CanPlay(START, run)
    ensures NoneDropped(Play(START, run)) <==> !EverDrops(START, run)
    ensures NoneStray(Play(START, run)) <==> !EverStrays(START, run)
    ensures Delivered(Play(START, run)) <==> !EverDrops(START, run) && !EverStrays(START, run)
  {
    assert CanPlay(START, []);
    Reachable([]);
    assert Logged(START) && Delivered(START) && NoneDropped(START) && NoneStray(START);
    hide SystemInv, Logged, Delivered, NoneDropped, NoneStray;
    DeliveriesOfRun(START, run);
  }

  // ---------------------------------------------------------------- messages that outlive their session

  /** Every message still outstanding was signalled for the present peer. */
  predicate Addressed(s: System) {
    Logged(s) && forall k :: |s.handed| <= k < |s.signalled| ==> s.signalledFor[k] == s.session.peerId
  }

  /** The session ends, or changes its peer, with messages outstanding: DeletePeerConnection keeps them. */
  predicate LeavesMail(s: System, a: Action, ch: Choice)
    requires CanAct(s, a)
  {
    Act(s, a, ch).session.peerId != s.session.peerId && |s.handed| < |s.signalled|
  }

  lemma AddressIff(s: System, a: Action, ch: Choice)
    requires SystemInv(s) && CanAct(s, a) && Addressed(s)
    ensures Addressed(Act(s, a, ch)) <==> !LeavesMail(s, a, ch)
    ensures !Strays(s, a, ch)
  {
    MailMoves(s, a, ch);
    TurnIsLogged(s, a, ch);
    var t, n := Act(s, a, ch), |s.handed|;
    SignalsDoNotHandOver(s, a);
    hide SystemInv, Act, CanAct, HandsOver, FateOf;
    if LeavesMail(s, a, ch) {
      assert s.signalledFor[n] == s.session.peerId;
      assert |t.handed| <= n < |t.signalled| && t.signalledFor[n] == s.signalledFor[n];
    }
  }

  predicate AlwaysAddressed(s: System, run: seq<Turn>)
    requires CanPlay(s, run)
    decreases |run|
  {
    && Addressed(s)
    && (run != [] ==> AlwaysAddressed(Act(s, run[0].action, run[0].choice), run[1..]))
  }

  predicate EverLeavesMail(s: System, run: seq<Turn>)
    requires CanPlay(s, run)
    decreases |run|
  {
    && run != []
    && (|| LeavesMail(s, run[0].action, run[0].choice)
        || EverLeavesMail(Act(s, run[0].action, run[0].choice), run[1..]))
  }

  lemma {:induction false} AddressesOfRun(s: System, run: seq<Turn>)
    requires SystemInv(s) && CanPlay(s, run) && Addressed(s)
    ensures AlwaysAddressed(s, run) <==> !EverLeavesMail(s, run)
    ensures !EverLeavesMail(s, run) ==> !EverStrays(s, run)
    decreases |run|
  {
    hide SystemInv, Act, CanAct, Addressed, LeavesMail, Strays;
    if run != [] {
      var a, ch := run[0].action, run[0].choice;
      ActKeeps(s, a, ch);
      AddressIff(s, a, ch);
      if Addressed(Act(s, a, ch)) { AddressesOfRun(Act(s, a, ch), run[1..]); }
    }
  }

  /**
    The messages outstanding are for the present peer in every state of a run if and only if no session
    ends or changes its peer with messages outstanding. In such runs the only way not to reach one's peer
    is to be dropped.
   */
  lemma MailStaysAddressedIff(run: seq<Turn>)
    requires CanPlay(START, run)
    ensures AlwaysAddressed(START, run) <==> !EverLeavesMail(START, run)
    ensures !EverLeavesMail(START, run) ==> (Delivered(Play(START, run)) <==> !EverDrops(START, run))
  {
    MessagesReachTheirPeerIff(run);
    assert CanPlay(START, []);
    Reachable([]);
    assert Addressed(START);
    hide SystemInv, Addressed, Delivered;
    AddressesOfRun(START, run);
  }

  // ---------------------------------------------------------------- closes that outlive their session

  /** A close that is queued while a session is on was posted for that session's peer. */
  predicate ClosesRight(s: System) {
    forall i :: 0 <= i < |s.queue| && s.queue[i].ConnectionClosed? && s.session.connection ==>
      s.queue[i].peer == s.session.peerId
  }

  /** What handling calls posts: closes only for the session that is on afterwards, if one is. */
  predicate Posts(s: System, t: System) {
    && s.queue <= t.queue
    && forall i :: |s.queue| <= i < |t.queue| && t.queue[i].ConnectionClosed? && t.session.connection ==>
         t.queue[i].peer == t.session.peerId
  }

  lemma ObservePosts(s: System, call: Callback, ch: Choice)
    ensures Posts(s, Observe(s, call, ch))
    ensures !call.MessageFromPeer? ==>
      Observe(s, call, ch).session == s.session || !Observe(s, call, ch).session.connection
  {}

  lemma PostsThen(s: System, t: System, u: System)
    requires Posts(s, t) && Posts(t, u)
    requires t == s || u.session == t.session || !u.session.connection
    ensures Posts(s, u)
  {
    assert forall i :: 0 <= i < |t.queue| ==> u.queue[i] == t.queue[i];
  }

  lemma {:induction false} ObserveAllPosts(s: System, calls: seq<Callback>, ch: Choice)
    requires Known(calls)
    ensures Posts(s, ObserveAll(s, calls, ch))
  {
    if calls != [] {
      var n := |calls| - 1;
      hide Observe, Posts;
      var t := ObserveAll(s, calls[..n], ch);
      ObserveAllPosts(s, calls[..n], ch);
      ObservePosts(t, calls[n], ch);
      if n == 0 { assert t == s; }
      PostsThen(s, t, Observe(t, calls[n], ch));
    }
  }

  lemma SocketPosts(s: System, e: Event, ch: Choice)
    requires SystemInv(s) && CanAct(s, Socket(e))
    ensures Posts(s, Act(s, Socket(e), ch))
  {
    var env := ch.env.(observerSignsOut := SignsOut(s.session, Sender(s.client, e), ch.kind, ch.factoryOk));
    ClientReports(s.client, e, env);
    hide Inv, SessionInv, Queued, Known, PeerClient.Step, Enabled, ServerAssignsId, Posts, ObserveAll;
    var client := PeerClient.Step(s.client, e, env);
    ObserveAllPosts(s.(client := client), Added(s.client, client), ch);
    PostsOfClient(s, client, Act(s, Socket(e), ch));
  }

  lemma PostsOfClient(s: System, client: Client, t: System)
    requires Posts(s.(client := client), t)
    ensures Posts(s, t)
  {}

  /** No turn but a socket event, a signal or a track posts anything, and no UI turn starts a session. */
  lemma QueueMoves(s: System, a: Action, ch: Choice)
    requires SystemInv(s) && CanAct(s, a)
    ensures var t := Act(s, a, ch);
      if a.UiTurn? then t.queue == s.queue[1..] && (t.session.connection ==> s.session.connection) else Posts(s, t)
  {
    hide Inv, SessionInv, Deliver, Disconnect, SendTurn, HandOver, SocketStep, ConnectStep, SendStep, SignOutStep;
    match a
    case Socket(e) => SocketPosts(s, e, ch);
    case StartLogin(server, name) => LoginPosts(s, server, name, ch);
    case DisconnectFromServer => DisconnectIs(s, ch);
    case DisconnectFromCurrentPeer => HangUpPosts(s, ch);
    case CloseWindow =>
      SignOutReports(s.client, ch.env);
      DeliverNothing(s, SignOutStep(s.client, ch.env), ch);
    case UiTurn => UiTurnQueue(s, ch);
    case _ =>
  }

  lemma LoginPosts(s: System, server: string, name: string, ch: Choice)
    ensures Act(s, StartLogin(server, name), ch).queue == s.queue
  {
    LoginReports(s.client, server, name, ch.env);
    hide Deliver, ConnectStep;
    var client := ConnectStep(s.client, server, name, ch.env);
    if client.calls == s.client.calls { DeliverNothing(s, client, ch); } else { DeliverFailure(s, client, ch); }
  }

  lemma HangUpPosts(s: System, ch: Choice)
    requires SystemInv(s) && CanAct(s, DisconnectFromCurrentPeer)
    ensures Act(s, DisconnectFromCurrentPeer, ch).queue == s.queue
  {
    if s.session.connection {
      SendReports(s.client, s.session.peerId, BYE, ch.env);
      hide Deliver, SendStep;
      DeliverNothing(s, SendStep(s.client, s.session.peerId, BYE, ch.env), ch);
    }
  }

  lemma UiTurnQueue(s: System, ch: Choice)
    requires SystemInv(s) && s.queue != []
    ensures var t := UiStep(s, ch); t.queue == s.queue[1..] && (t.session.connection ==> s.session.connection)
  {
    hide Inv, SessionInv, Disconnect, SendTurn, HandOver, Queued;
    var t := s.(queue := s.queue[1..]);
    match s.queue[0]
    case ConnectionClosed(_) => DisconnectIs(t.(session := DeletePeerConnection(t.session)), ch);
    case Track =>
    case Send(message) =>
      SendTurnIs(t, message, ch);
      var waiting := Waiting(t, message);
      if waiting != [] && !IsSending(s.client) { HandOverIs(t.(session := t.session.(pending := waiting)), ch); }
  }

  /** A session with another peer starts while a close is still queued. */
  predicate StartsUnderClose(s: System, a: Action, ch: Choice)
    requires CanAct(s, a)
  {
    var t := Act(s, a, ch);
    && !s.session.connection && t.session.connection
    && exists i :: 0 <= i < |s.queue| && s.queue[i].ConnectionClosed? && s.queue[i].peer != t.session.peerId
  }

  lemma CloseIff(s: System, a: Action, ch: Choice)
    requires SystemInv(s) && CanAct(s, a) && ClosesRight(s)
    ensures ClosesRight(Act(s, a, ch)) <==> !StartsUnderClose(s, a, ch)
  {
    ActKeeps(s, a, ch);
    QueueMoves(s, a, ch);
    var t := Act(s, a, ch);
    hide SystemInv, Act, CanAct;
    if StartsUnderClose(s, a, ch) {
      var i :| 0 <= i < |s.queue| && s.queue[i].ConnectionClosed? && s.queue[i].peer != t.session.peerId;
      assert i < |t.queue| && t.queue[i] == s.queue[i];
    } else {
      forall i | 0 <= i < |t.queue| && t.queue[i].ConnectionClosed? && t.session.connection
        ensures t.queue[i].peer == t.session.peerId
      {
        if a.UiTurn? { assert t.queue[i] == s.queue[i + 1]; }
        else if i < |s.queue| { assert t.queue[i] == s.queue[i]; }
      }
    }
  }

  predicate AlwaysClosesRight(s: System, run: seq<Turn>)
    requires CanPlay(s, run)
    decreases |run|
  {
    && ClosesRight(s)
    && (run != [] ==> AlwaysClosesRight(Act(s, run[0].action, run[0].choice), run[1..]))
  }

  predicate EverStartsUnderClose(s: System, run: seq<Turn>)
    requires CanPlay(s, run)
    decreases |run|
  {
    && run != []
    && (|| StartsUnderClose(s, run[0].action, run[0].choice)
        || EverStartsUnderClose(Act(s, run[0].action, run[0].choice), run[1..]))
  }

  lemma {:induction false} ClosesOfRun(s: System, run: seq<Turn>)
    requires SystemInv(s) && CanPlay(s, run) && ClosesRight(s)
    ensures AlwaysClosesRight(s, run) <==> !EverStartsUnderClose(s, run)
    decreases |run|
  {
    hide SystemInv, Act, CanAct, ClosesRight, StartsUnderClose;
    if run != [] {
      var a, ch := run[0].action, run[0].choice;
      ActKeeps(s, a, ch);
      CloseIff(s, a, ch);
      if ClosesRight(Act(s, a, ch)) { ClosesOfRun(Act(s, a, ch), run[1..]); }
    }
  }

  /**
    A posted close carries no peer and ends whatever session is on when its turn comes. In every state of
    a run the queued closes are for the session that is on, if one is, if and only if no session with
    another peer is started while a close is queued.
   */
  lemma ClosesMeetTheirSessionIff(run: seq<Turn>)
    requires CanPlay(START, run)
    ensures AlwaysClosesRight(START, run) <==> !EverStartsUnderClose(START, run)
  {
    assert CanPlay(START, []);
    Reachable([]);
    assert ClosesRight(START);
    hide SystemInv, ClosesRight;
    ClosesOfRun(START, run);
  }
}
