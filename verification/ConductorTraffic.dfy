/**
  What one turn of the conductor does, told from what happens to it: what it asks of the client, what it
  posts to the UI queue, and what becomes of the call. `ConductorHistory` lifts this to runs.
 */
module ConductorTraffic {
  import opened HttpFraming
  import opened PeerEntries
  import opened PeerClient
  import opened PeerTraffic
  import opened Conductor
  import opened ConductorProperties
  import opened ConductorRuns
  import opened ConductorMail

  // ---------------------------------------------------------------- what the client is asked to do

  /** Words of a peer that reach the conductor as a message. */
  predicate Spoken(news: News) {
    news.Words? && news.text != "BYE"
  }

  /** The conductor signs out in answer: it could not set up a connection for the message. */
  predicate GivesUp(s: System, news: News, ch: Choice) {
    && Spoken(news)
    && (|| (!s.session.connection && !ch.factoryOk)
        || ((!s.session.connection || news.id == s.session.peerId) && ch.kind == OfferLoopback(false)))
  }

  /** The message that has waited longest. */
  function Oldest(s: System): string {
    if |s.handed| < |s.signalled| then s.signalled[|s.handed|] else ""
  }

  function ClientInputs(s: System, a: Action, ch: Choice): seq<Input> {
    match a
    case Socket(e) => [Input(e, ch.env.(observerSignsOut := GivesUp(s, NewsIn(s.client, e), ch)))]
    case StartLogin(server, name) => if s.client.myId == -1 then [Input(Connect(server, name), ch.env)] else []
    case DisconnectFromServer => if s.client.myId != -1 then [Input(SignOut, ch.env)] else []
    case DisconnectFromCurrentPeer =>
      if s.session.connection then [Input(SendMessage(s.session.peerId, "BYE"), ch.env)] else []
    case CloseWindow => [Input(SignOut, ch.env)]
    case UiTurn =>
      if HandsOver(s, a) then
        [Input(SendMessage(s.session.peerId, Oldest(s)), ch.env)]
        + (if s.client.state != CONNECTED && s.client.myId != -1 && s.session.peerId != -1
           then [Input(SignOut, ch.env)] else [])
      else if s.queue != [] && s.queue[0].ConnectionClosed? && !ch.window && s.client.myId != -1 then
        [Input(SignOut, ch.env)]
      else []
    case _ => []
  }

  lemma {:induction false} ObserveAllClient(s: System, calls: seq<Callback>, ch: Choice)
    ensures ObserveAll(s, calls, ch).client == s.client
  {
    if calls != [] { ObserveAllClient(s, calls[..|calls| - 1], ch); }
  }

  lemma DeliverClient(s: System, client: Client, ch: Choice)
    ensures Deliver(s, client, ch).client == client
  {
    ObserveAllClient(s.(client := client),
                     if |s.client.calls| <= |client.calls| then client.calls[|s.client.calls|..] else [], ch);
  }

  lemma SameAnswer(c: Client, news: News, env: Env, signsOut: bool)
    requires !Spoken(news)
    ensures Answer(c, news, env) == Answer(c, news, env.(observerSignsOut := signsOut))
  {}

  lemma ReadSignsOutForMessages(c: Client, data: string, env: Env, signsOut: bool)
    requires !Spoken(NewsIn(c, HangingRead(data)))
    ensures HangingReads(c, data, env) == HangingReads(c, data, env.(observerSignsOut := signsOut))
  {
    hide Complete, ShouldClose, HeaderEnd, NewsOf, Notification, Answer;
    var d := c.notificationData + data;
    var t := c.(notificationData := d);
    CompleteHasHeaders(d);
    if Complete(d) {
      var u := if ShouldClose(d) then HangingCloses(t, false, env) else t;
      NotificationIs(u, d, env);
      NotificationIs(u, d, env.(observerSignsOut := signsOut));
      SameAnswer(u, NewsOf(c.myId, d), env, signsOut);
    }
  }

  /** Whether the observer would sign out matters only for a message. */
  lemma SignsOutForMessages(c: Client, e: Event, env: Env, signsOut: bool)
    requires Enabled(c, e) && !Spoken(NewsIn(c, e))
    ensures PeerClient.Step(c, e, env) == PeerClient.Step(c, e, env.(observerSignsOut := signsOut))
  {
    hide Complete, ShouldClose, ContentLength, Status, PragmaId, HeaderEnd, NewsOf, HangingReads, SignInReply;
    hide SignInRequest, MessageRequest, SignOutRequest, Spoken;
    match e
    case HangingRead(data) => ReadSignsOutForMessages(c, data, env, signsOut);
    case _ =>
  }

  lemma RunOne(c: Client, i: Input)
    requires Enabled(c, i.event) && ServerAssignsId(c, i.event)
    ensures CanRun(c, [i]) && Run(c, [i]) == PeerClient.Step(c, i.event, i.env)
  {
    hide PeerClient.Step, Enabled, ServerAssignsId;
    var t := PeerClient.Step(c, i.event, i.env);
    assert [i][1..] == [];
    assert CanRun(t, []) && Run(t, []) == t;
  }

  lemma SocketClient(s: System, e: Event, ch: Choice)
    requires CanAct(s, Socket(e))
    ensures var i := ClientInputs(s, Socket(e), ch);
      CanRun(s.client, i) && Act(s, Socket(e), ch).client == Run(s.client, i)
  {
    var news := NewsIn(s.client, e);
    var flag := SignsOut(s.session, Sender(s.client, e), ch.kind, ch.factoryOk);
    var env := ch.env.(observerSignsOut := flag);
    if Spoken(news) {
      SenderOfWords(s.client, e);
      assert flag == GivesUp(s, news, ch);
    } else {
      SignsOutForMessages(s.client, e, env, GivesUp(s, news, ch));
    }
    hide PeerClient.Step, Enabled, ServerAssignsId, Deliver, SignsOut, Sender, GivesUp;
    DeliverClient(s, PeerClient.Step(s.client, e, env), ch);
    RunOne(s.client, ClientInputs(s, Socket(e), ch)[0]);
  }

  lemma SenderOfWords(c: Client, e: Event)
    ensures NewsIn(c, e).Words? ==> Sender(c, e) == NewsIn(c, e).id
  {
    hide PragmaId, Status, BodyOf, ParseEntry;
  }

  lemma RunTwo(c: Client, i: Input, j: Input)
    requires Enabled(c, i.event) && ServerAssignsId(c, i.event)
    requires var t := PeerClient.Step(c, i.event, i.env); Enabled(t, j.event) && ServerAssignsId(t, j.event)
    ensures CanRun(c, [i] + [j])
    ensures Run(c, [i] + [j]) == PeerClient.Step(PeerClient.Step(c, i.event, i.env), j.event, j.env)
  {
    hide PeerClient.Step, Enabled, ServerAssignsId;
    RunOne(PeerClient.Step(c, i.event, i.env), j);
    assert ([i] + [j])[1..] == [j];
  }

  /** A hand-over asks the client to send the first waiting message, and gives up a client that is not connected. */
  lemma HandOverClient(s: System, ch: Choice)
    requires Inv(s.client) && s.session.pending != [] && !IsSending(s.client)
    ensures var sent := SendStep(s.client, s.session.peerId, s.session.pending[0], ch.env);
      HandOver(s, ch).client ==
        if s.client.state != CONNECTED && s.client.myId != -1 && s.session.peerId != -1
        then SignOutStep(sent, ch.env) else sent
  {
    var message := s.session.pending[0];
    var t := s.(session := s.session.(pending := s.session.pending[1..]), handed := s.handed + [message],
                fates := s.fates + [FateOf(s, ch)]);
    SendReports(t.client, t.session.peerId, message, ch.env);
    var client := SendStep(t.client, t.session.peerId, message, ch.env);
    assert s.client.state != CONNECTED ==> client == s.client;
    assert client == s.client || client.myId == -1 || SendSucceeds(t.client, t.session.peerId, ch.env);
    DeliverNothing(t, client, ch);
    DisconnectIs(t.(client := client), ch);
    hide SendStep, Deliver, Disconnect, SignOutStep, MessageRequest;
  }

  lemma OldestWaits(s: System)
    requires InOrder(s) && s.queue != [] && s.queue[0].Send? && Waiting(s, s.queue[0].message) != []
    ensures |s.handed| < |s.signalled| && Waiting(s, s.queue[0].message)[0] == s.signalled[|s.handed|]
  {
    var message := s.queue[0].message;
    QueuedHead(s.queue);
    hide Queued;
    FirstWaiting(s.handed, s.session.pending, if message.Some? then [message.value] else [], Queued(s.queue[1..]));
    assert s.session.pending + [] == s.session.pending;
  }

  lemma UiTurnClient(s: System, ch: Choice)
    requires SystemInv(s) && s.queue != []
    ensures var i := ClientInputs(s, UiTurn, ch); CanRun(s.client, i) && UiStep(s, ch).client == Run(s.client, i)
  {
    var t := s.(queue := s.queue[1..]);
    hide Inv, SessionInv, Deliver, Disconnect, SendTurn, HandOver, SendStep, SignOutStep, Queued;
    match s.queue[0]
    case ConnectionClosed(_) =>
      DisconnectIs(t.(session := DeletePeerConnection(t.session)), ch);
      RunOne(s.client, Input(SignOut, ch.env));
    case Track =>
    case Send(message) =>
      SendTurnIs(t, message, ch);
      var waiting := Waiting(s, message);
      assert Waiting(t, message) == waiting;
      if HandsOver(s, UiTurn) {
        OldestWaits(s);
        HandOverClient(t.(session := t.session.(pending := waiting)), ch);
        HandOverRuns(s, ch);
      }
  }

  lemma HandOverRuns(s: System, ch: Choice)
    requires HandsOver(s, UiTurn)
    ensures var i := ClientInputs(s, UiTurn, ch);
      var sent := SendStep(s.client, s.session.peerId, Oldest(s), ch.env);
      && CanRun(s.client, i)
      && Run(s.client, i) ==
           if s.client.state != CONNECTED && s.client.myId != -1 && s.session.peerId != -1
           then SignOutStep(sent, ch.env) else sent
  {
    var i := Input(SendMessage(s.session.peerId, Oldest(s)), ch.env);
    RunOne(s.client, i);
    if s.client.state != CONNECTED && s.client.myId != -1 && s.session.peerId != -1 {
      RunTwo(s.client, i, Input(SignOut, ch.env));
    } else {
      assert [i] + [] == [i];
    }
    hide Waiting, CanRun, Run, SignOutStep, MessageRequest;
  }

  /**
    What a turn asks of the client is this and nothing else: the socket events it gets, signing in and out,
    the goodbye of a hang-up, and the message that has waited longest, for the present peer. The client
    inside the conductor so runs as the client alone would.
   */
  lemma ClientOfTurn(s: System, a: Action, ch: Choice)
    requires SystemInv(s) && CanAct(s, a)
    ensures var i := ClientInputs(s, a, ch); CanRun(s.client, i) && Act(s, a, ch).client == Run(s.client, i)
  {
    hide Inv, SessionInv, Deliver, Disconnect, UiStep, SocketStep, ConnectStep, SendStep, SignOutStep, Queued;
    match a
    case Socket(e) => SocketClient(s, e, ch);
    case StartLogin(server, name) =>
      DeliverClient(s, ConnectStep(s.client, server, name, ch.env), ch);
      RunOne(s.client, Input(Connect(server, name), ch.env));
    case DisconnectFromServer =>
      DisconnectIs(s, ch);
      RunOne(s.client, Input(SignOut, ch.env));
    case DisconnectFromCurrentPeer =>
      if s.session.connection {
        DeliverClient(s, SendStep(s.client, s.session.peerId, BYE, ch.env), ch);
        RunOne(s.client, Input(SendMessage(s.session.peerId, BYE), ch.env));
      }
    case CloseWindow =>
      DeliverClient(s, SignOutStep(s.client, ch.env), ch);
      RunOne(s.client, Input(SignOut, ch.env));
    case UiTurn => UiTurnClient(s, ch);
    case _ =>
  }

  // ---------------------------------------------------------------- what is posted to the UI queue

  /**
    A message that was signalled, a changed track, the news that the control socket is free, and the
    departure of the present peer.
   */
  function Posted(s: System, a: Action): seq<UiEvent> {
    match a
    case Signal(message) => if s.session.loopback then [] else [Send(Some(message))]
    case TrackChanged => [Track]
    case Socket(ControlClosed(refused, _)) => if refused then [] else [Send(None)]
    case Socket(ControlRead(data)) => if ShouldClose(s.client.controlData + data) then [Send(None)] else []
    case Socket(e) =>
      var news := NewsIn(s.client, e);
      if (news.Words? && news.text == "BYE" && news.id == s.session.peerId)
         || (news.Member? && !news.entry.connected && news.entry.id == s.session.peerId)
      then [ConnectionClosed(s.session.peerId)] else []
    case _ => []
  }

  // ---------------------------------------------------------------- what becomes of the call

  /** The call of the moment: with whom, whether it is a loopback, and what its connection was handed. */
  datatype Call = Silence | Call(peer: int, loopback: bool, applied: seq<Applied>)

  function CallOf(c: Session): Call {
    if c.connection then Call(c.peerId, c.loopback, c.applied) else Silence
  }

  /** A message of `id`: strangers are ignored, and the first message of all begins a call. */
  function Hear(call: Call, id: int, text: string, ch: Choice): Call {
    if call.Call? && id != call.peer then call
    else if call.Silence? && !ch.factoryOk then Silence
    else
      var now := if call.Silence? then Call(id, false, []) else call;
      if ch.kind == OfferLoopback(true) then now.(loopback := true)
      else if ch.kind == OfferLoopback(false) then Silence
      else if ch.kind.Description? || ch.kind == Candidate(true) then now.(applied := now.applied + [Applied(id, text)])
      else now
  }

  /** The client says that it is disconnected: a refusal, or the reply to a sign-out. */
  predicate LosesServer(c: Client, e: Event) {
    match e
    case ControlRead(data) =>
      var d := c.controlData + data;
      Complete(d) && (Status(d) != 200 || (c.myId != -1 && c.state == SIGNING_OUT))
    case HangingClosed(refused) => refused
    case HangingRead(_) => NewsIn(c, e).Refusal?
    case _ => false
  }

  function NextCall(call: Call, s: System, a: Action, ch: Choice): Call {
    match a
    case UserConnects(peer) => if call.Silence? && ch.factoryOk then Call(peer, false, []) else call
    case DisconnectFromCurrentPeer => Silence
    case CloseWindow => Silence
    case UiTurn => if s.queue != [] && s.queue[0].ConnectionClosed? then Silence else call
    case Socket(e) =>
      var news := NewsIn(s.client, e);
      if LosesServer(s.client, e) then Silence
      else if Spoken(news) then Hear(call, news.id, news.text, ch)
      else call
    case _ => call
  }

  // ---------------------------------------------------------------- handling the calls of the client

  lemma {:induction false} ObserveConcat(s: System, a: seq<Callback>, b: seq<Callback>, ch: Choice)
    ensures ObserveAll(s, a + b, ch) == ObserveAll(ObserveAll(s, a, ch), b, ch)
  {
    hide Observe;
    if b == [] {
      assert a + b == a;
    } else {
      var n := |b| - 1;
      assert (a + b)[..|a + b| - 1] == a + b[..n] && (a + b)[|a + b| - 1] == b[n];
      ObserveConcat(s, a, b[..n], ch);
    }
  }

  lemma ObserveOne(s: System, call: Callback, ch: Choice)
    ensures ObserveAll(s, [call], ch) == Observe(s, call, ch)
  {
    hide Observe;
    assert [call][..0] == [];
    assert ObserveAll(s, [call][..0], ch) == s;
  }

  /** New members and the sign-in only concern the window. */
  lemma {:induction false} ObserveNoise(s: System, calls: seq<Callback>, ch: Choice)
    requires forall k :: 0 <= k < |calls| ==>
      calls[k].PeerConnected? || calls[k].SignedIn? || calls[k].ConnectionFailure?
    ensures ObserveAll(s, calls, ch) == s
  {
    if calls != [] { ObserveNoise(s, calls[..|calls| - 1], ch); }
  }

  lemma ObserveReply(s: System, c: Client, d: string, ch: Choice)
    ensures ObserveAll(s, ToldOfReply(c, d), ch) ==
      s.(queue := s.queue + (if ShouldClose(d) then [Send(None)] else []),
         session := if Complete(d) && (Status(d) != 200 || (c.myId != -1 && c.state == SIGNING_OUT))
                    then DeletePeerConnection(s.session) else s.session)
  {
    hide Complete, ShouldClose, Status, ContentLength, HeaderEnd, Listed, ObserveAll;
    ClosesComplete(d);
    NothingObserved(s, ch);
    assert s.queue + [] == s.queue;
    if Complete(d) {
      var first := if ShouldClose(d) then [MessageSent(0)] else [];
      var t := s.(queue := s.queue + (if ShouldClose(d) then [Send(None)] else []));
      if ShouldClose(d) { ObserveOne(s, MessageSent(0), ch); }
      var rest := ToldOfReply(c, d)[|first|..];
      assert ToldOfReply(c, d) == first + rest;
      ObserveConcat(s, first, rest, ch);
      if Status(d) != 200 || (c.myId != -1 && c.state == SIGNING_OUT) {
        assert rest == [Disconnected];
        ObserveOne(t, Disconnected, ch);
      } else {
        ObserveNoise(t, rest, ch);
      }
    }
  }

  lemma NothingObserved(s: System, ch: Choice)
    ensures ObserveAll(s, [], ch) == s
  {}

  lemma HearIs(c: Session, id: int, text: string, ch: Choice)
    requires SessionInv(c)
    ensures CallOf(OnMessageFromPeer(c, id, text, ch.kind, ch.factoryOk)) == Hear(CallOf(c), id, text, ch)
  {
    if c.applied != [] { assert c.applied[0] in c.applied; }
  }

  lemma ObserveNews(s: System, news: News, ch: Choice)
    requires SessionInv(s.session)
    ensures var t := ObserveAll(s, Told(news), ch);
      && t.queue == s.queue
           + (if (news.Words? && news.text == "BYE" && news.id == s.session.peerId)
                 || (news.Member? && !news.entry.connected && news.entry.id == s.session.peerId)
              then [ConnectionClosed(s.session.peerId)] else [])
      && CallOf(t.session) ==
           (if news.Refusal? then Silence
            else if Spoken(news) then Hear(CallOf(s.session), news.id, news.text, ch)
            else CallOf(s.session))
      && (!news.Refusal? && !Spoken(news) ==> t.session == s.session)
      && (Spoken(news) && s.session.connection && news.id != s.session.peerId ==> t.session == s.session)
  {
    hide ObserveAll, SessionInv, Hear;
    NothingObserved(s, ch);
    assert s.queue + [] == s.queue;
    if Spoken(news) { HearIs(s.session, news.id, news.text, ch); }
    if Told(news) != [] {
      assert Told(news) == [Told(news)[0]];
      ObserveOne(s, Told(news)[0], ch);
    }
  }

  /** The client's step and the calls it makes, handled here. */
  lemma SocketObserved(s: System, e: Event, ch: Choice) returns (client: Client)
    requires SystemInv(s) && CanAct(s, Socket(e))
    ensures exists env :: Act(s, Socket(e), ch) == ObserveAll(s.(client := client), Calls(s.client, e, env), ch)
  {
    var env := ch.env.(observerSignsOut := SignsOut(s.session, Sender(s.client, e), ch.kind, ch.factoryOk));
    CallsOfEvent(s.client, e, env);
    hide PeerClient.Step, Calls, Inv, SessionInv, Enabled, ServerAssignsId, ObserveAll;
    client := PeerClient.Step(s.client, e, env);
    assert client.calls[|s.client.calls|..] == Calls(s.client, e, env);
    assert Act(s, Socket(e), ch) == ObserveAll(s.(client := client), Calls(s.client, e, env), ch);
  }

  lemma SocketOfTurn(s: System, e: Event, ch: Choice)
    requires SystemInv(s) && CanAct(s, Socket(e))
    ensures var t := Act(s, Socket(e), ch);
      && t.queue == s.queue + Posted(s, Socket(e))
      && CallOf(t.session) == NextCall(CallOf(s.session), s, Socket(e), ch)
      && (NewsIn(s.client, e).Words? && s.session.connection && NewsIn(s.client, e).id != s.session.peerId
          ==> t.session == s.session)
  {
    var client := SocketObserved(s, e, ch);
    var env :| Act(s, Socket(e), ch) == ObserveAll(s.(client := client), Calls(s.client, e, env), ch);
    var u := s.(client := client);
    hide Act, Inv, SessionInv, Complete, ShouldClose, Status, ObserveAll, ToldOfReply, Told, Hear, NewsOf, PragmaId;
    NothingObserved(u, ch);
    assert s.queue + [] == s.queue;
    match e
    case ControlRead(data) => ObserveReply(u, s.client, s.client.controlData + data, ch);
    case HangingRead(data) => ObserveNews(u, NewsIn(s.client, e), ch);
    case ControlClosed(refused, err) => if !refused { ObserveOne(u, MessageSent(err), ch); }
    case HangingClosed(refused) => if refused { ObserveOne(u, Disconnected, ch); }
    case Retry => if !env.controlConnects { ObserveOne(u, ConnectionFailure, ch); }
    case _ =>
  }

  lemma UiTurnCall(s: System, ch: Choice)
    requires SystemInv(s) && s.queue != []
    ensures CallOf(UiStep(s, ch).session) == if s.queue[0].ConnectionClosed? then Silence else CallOf(s.session)
  {
    var t := s.(queue := s.queue[1..]);
    hide Inv, SessionInv, Disconnect, SendTurn, HandOver, Queued;
    match s.queue[0]
    case ConnectionClosed(_) => DisconnectIs(t.(session := DeletePeerConnection(t.session)), ch);
    case Track =>
    case Send(message) =>
      SendTurnIs(t, message, ch);
      var waiting := Waiting(t, message);
      if waiting != [] && !IsSending(s.client) { HandOverIs(t.(session := t.session.(pending := waiting)), ch); }
  }

  /** A turn takes the handled event out of the UI queue, if it is the UI's, and posts exactly these. */
  lemma QueueOfTurn(s: System, a: Action, ch: Choice)
    requires SystemInv(s) && CanAct(s, a)
    ensures Act(s, a, ch).queue == (if a.UiTurn? then s.queue[1..] else s.queue) + Posted(s, a)
  {
    hide Inv, SessionInv, Deliver, Disconnect, UiStep, SocketStep, ConnectStep, SendStep, SignOutStep, Queued;
    hide ShouldClose;
    match a
    case Socket(e) => SocketOfTurn(s, e, ch);
    case StartLogin(server, name) => LoginPosts(s, server, name, ch);
    case DisconnectFromServer => DisconnectIs(s, ch);
    case DisconnectFromCurrentPeer => HangUpPosts(s, ch);
    case CloseWindow =>
      SignOutReports(s.client, ch.env);
      DeliverNothing(s, SignOutStep(s.client, ch.env), ch);
    case UiTurn => UiTurnQueue(s, ch);
    case _ =>
  }

  /**
    Calls begin, go on and end exactly as `NextCall` says, whatever the turn: the conductor has no other
    reason to change its session than the news of the server, the user and a posted close.
   */
  lemma CallOfTurn(s: System, a: Action, ch: Choice)
    requires SystemInv(s) && CanAct(s, a)
    ensures CallOf(Act(s, a, ch).session) == NextCall(CallOf(s.session), s, a, ch)
  {
    hide Inv, Deliver, Disconnect, UiStep, SocketStep, ConnectStep, SendStep, SignOutStep, Queued, Hear;
    match a
    case Socket(e) => SocketOfTurn(s, e, ch);
    case StartLogin(server, name) => LoginCall(s, server, name, ch);
    case DisconnectFromServer => DisconnectIs(s, ch);
    case UserConnects(peer) => if s.session.applied != [] { assert s.session.applied[0] in s.session.applied; }
    case DisconnectFromCurrentPeer =>
    case CloseWindow =>
    case UiTurn => UiTurnCall(s, ch);
    case _ =>
  }

  lemma LoginCall(s: System, server: string, name: string, ch: Choice)
    ensures Act(s, StartLogin(server, name), ch).session == s.session
  {
    LoginReports(s.client, server, name, ch.env);
    hide Deliver, ConnectStep;
    var client := ConnectStep(s.client, server, name, ch.env);
    if client.calls == s.client.calls { DeliverNothing(s, client, ch); } else { DeliverFailure(s, client, ch); }
  }

  /** Whatever a stranger sends while there is a session - words or a goodbye - leaves the session as it is. */
  lemma StrangersChangeNothing(s: System, data: string, ch: Choice)
    requires SystemInv(s) && CanAct(s, Socket(HangingRead(data))) && s.session.connection
    requires var news := NewsIn(s.client, HangingRead(data)); news.Words? && news.id != s.session.peerId
    ensures Act(s, Socket(HangingRead(data)), ch).session == s.session
    ensures Act(s, Socket(HangingRead(data)), ch).queue == s.queue
  {
    hide Act, CanAct, Inv, SessionInv, Queued, NewsOf;
    SocketOfTurn(s, HangingRead(data), ch);
  }
}
