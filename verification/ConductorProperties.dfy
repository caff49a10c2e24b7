/**
  What every step of the conductor keeps: one session is one peer, messages leave in the order they were
  signalled, and waiting messages keep something that will look at them, but for one kind of hand-over.
  `ConductorRuns` lifts this to runs.
 */
module ConductorProperties {
  import opened Text
  import opened HttpFraming
  import opened PeerEntries
  import opened PeerClient
  import opened Conductor

  // ---------------------------------------------------------------- the invariants

  /** A connection exists exactly while there is a peer and a factory, and all it applied came from that peer. */
  predicate SessionInv(c: Session) {
    && (c.connection <==> c.peerId != -1)
    && (c.connection <==> c.factory)
    && (c.loopback ==> c.connection)
    && (forall a | a in c.applied :: c.connection && a.peer == c.peerId)
  }

  function Queued(queue: seq<UiEvent>): seq<string> {
    if queue == [] then []
    else (if queue[0].Send? && queue[0].message.Some? then [queue[0].message.value] else []) + Queued(queue[1..])
  }

  predicate InOrder(s: System) {
    s.handed + s.session.pending + Queued(s.queue) == s.signalled
  }

  predicate WakeUpQueued(queue: seq<UiEvent>) {
    exists i :: 0 <= i < |queue| && queue[i].Send?
  }

  /** A connected, idle client with messages waiting: something will look at them. */
  predicate Awake(s: System) {
    s.client.state == CONNECTED && s.client.control == Closed && s.session.pending != [] ==>
      WakeUpQueued(s.queue) || s.client.retries > 0
  }

  /** While a session lasts it keeps its peer. */
  predicate SamePeer(a: Session, b: Session) {
    a.connection && b.connection ==> b.peerId == a.peerId
  }

  predicate SystemInv(s: System) {
    Inv(s.client) && SessionInv(s.session) && InOrder(s)
  }

  // ---------------------------------------------------------------- steps of the session

  lemma OnMessageFromPeerKeeps(c: Session, peer: int, text: string, kind: MessageKind, factoryOk: bool)
    requires SessionInv(c) && peer != -1
    ensures var t := OnMessageFromPeer(c, peer, text, kind, factoryOk);
      && SessionInv(t) && t.pending == c.pending && SamePeer(c, t)
  {}

  lemma ConnectToPeerKeeps(c: Session, peer: int, factoryOk: bool)
    requires SessionInv(c) && peer != -1
    ensures var t := ConnectToPeer(c, peer, factoryOk);
      SessionInv(t) && t.pending == c.pending && (c.connection ==> t == c)
  {}

  // ---------------------------------------------------------------- deliveries

  lemma {:induction false} QueuedPush(queue: seq<UiEvent>, e: UiEvent)
    ensures Queued(queue + [e]) == Queued(queue) + (if e.Send? && e.message.Some? then [e.message.value] else [])
  {
    if queue != [] {
      assert (queue + [e])[1..] == queue[1..] + [e];
      QueuedPush(queue[1..], e);
    } else {
      assert queue + [e] == [e] && [e][1..] == [];
    }
  }

  lemma WakeUpPush(queue: seq<UiEvent>, e: UiEvent)
    ensures WakeUpQueued(queue + [e]) <==> WakeUpQueued(queue) || e.Send?
  {
    if e.Send? { assert (queue + [e])[|queue|].Send?; }
    if WakeUpQueued(queue) {
      var i :| 0 <= i < |queue| && queue[i].Send?;
      assert (queue + [e])[i].Send?;
    }
  }

  /** What handling calls may change: never the messages, only the session and requests in the queue. */
  predicate Handled(s: System, t: System, sent: bool) {
    && t.client == s.client && t.signalled == s.signalled && t.handed == s.handed
    && t.signalledFor == s.signalledFor && t.fates == s.fates
    && t.session.pending == s.session.pending
    && Queued(t.queue) == Queued(s.queue)
    && (SessionInv(s.session) ==> SessionInv(t.session) && SamePeer(s.session, t.session))
    && (WakeUpQueued(s.queue) || sent ==> WakeUpQueued(t.queue))
  }

  /** No message names a sender -1, and a message comes first among the calls of one event. */
  predicate Known(calls: seq<Callback>) {
    forall k :: 0 <= k < |calls| && calls[k].MessageFromPeer? ==> calls[k].id != -1 && k == 0
  }

  predicate NoMessage(calls: seq<Callback>) {
    forall k :: 0 <= k < |calls| ==> !calls[k].MessageFromPeer?
  }

  lemma QueueHandled(s: System, e: UiEvent)
    requires e.Send? ==> e.message.None?
    ensures Handled(s, s.(queue := s.queue + [e]), e.Send?)
  {
    QueuedPush(s.queue, e);
    WakeUpPush(s.queue, e);
    hide Queued, WakeUpQueued, SessionInv;
  }

  lemma ObserveHandled(s: System, call: Callback, ch: Choice)
    requires call.MessageFromPeer? ==> call.id != -1
    ensures Handled(s, Observe(s, call, ch), call.MessageSent?)
    ensures !call.MessageFromPeer? ==>
      Observe(s, call, ch).session == s.session || !Observe(s, call, ch).session.connection
  {
    hide Queued, WakeUpQueued;
    match call
    case MessageSent(_) => QueueHandled(s, Send(None));
    case PeerDisconnected(id) => QueueHandled(s, ConnectionClosed(id));
    case MessageFromPeer(id, text) =>
      if SessionInv(s.session) { OnMessageFromPeerKeeps(s.session, id, text, ch.kind, ch.factoryOk); }
      assert Observe(s, call, ch).session.pending == s.session.pending;
    case _ =>
  }

  predicate HasSent(calls: seq<Callback>) {
    exists k :: 0 <= k < |calls| && calls[k].MessageSent?
  }

  lemma HandledThen(s: System, t: System, u: System, a: bool, b: bool)
    requires Handled(s, t, a) && Handled(t, u, b)
    requires t.session == s.session || u.session == t.session || !u.session.connection
    ensures Handled(s, u, a || b)
  {
    hide Queued, SessionInv, WakeUpQueued;
  }

  lemma {:induction false} ObserveAllHandled(s: System, calls: seq<Callback>, ch: Choice)
    requires Known(calls)
    ensures Handled(s, ObserveAll(s, calls, ch), HasSent(calls))
  {
    if calls != [] {
      var n := |calls| - 1;
      hide Queued, SessionInv, WakeUpQueued, Observe, Handled;
      var t := ObserveAll(s, calls[..n], ch);
      ObserveAllHandled(s, calls[..n], ch);
      ObserveHandled(t, calls[n], ch);
      SentLast(calls);
      if n == 0 { assert t == s; }
      HandledThen(s, t, Observe(t, calls[n], ch), HasSent(calls[..n]), calls[n].MessageSent?);
    } else {
      hide Queued, SessionInv, WakeUpQueued;
    }
  }

  lemma SentLast(calls: seq<Callback>)
    requires calls != []
    ensures var n := |calls| - 1; HasSent(calls) <==> HasSent(calls[..n]) || calls[n].MessageSent?
  {
    var n := |calls| - 1;
    if HasSent(calls) {
      var k :| 0 <= k < |calls| && calls[k].MessageSent?;
      assert k < n ==> calls[..n][k].MessageSent?;
    }
    if HasSent(calls[..n]) {
      var k :| 0 <= k < n && calls[..n][k].MessageSent?;
      assert calls[k].MessageSent?;
    }
  }

  lemma DeliverNothing(s: System, client: Client, ch: Choice)
    requires client.calls == s.client.calls
    ensures Deliver(s, client, ch) == s.(client := client)
  {
    assert client.calls[|s.client.calls|..] == [];
  }

  /** OnServerConnectionFailure only shows a message. */
  lemma DeliverFailure(s: System, client: Client, ch: Choice)
    requires client.calls == s.client.calls + [ConnectionFailure]
    ensures Deliver(s, client, ch) == s.(client := client)
  {
    var added := client.calls[|s.client.calls|..];
    assert added == [ConnectionFailure] && added[..0] == [];
    assert ObserveAll(s.(client := client), added[..0], ch) == s.(client := client);
  }

  // ---------------------------------------------------------------- what the client reports

  function Added(c: Client, t: Client): seq<Callback> {
    if |c.calls| <= |t.calls| then t.calls[|c.calls|..] else []
  }

  /** t extends c's calls, with calls the conductor can rely on. */
  predicate Reports(c: Client, t: Client) {
    c.calls <= t.calls && Known(Added(c, t))
  }

  /** An idle connected client was idle before, or has just said that its socket is free, or has a timer. */
  predicate Wakes(c: Client, t: Client) {
    t.state == CONNECTED && t.control == Closed ==>
      HasSent(Added(c, t)) || t.retries > 0 || (c.state == CONNECTED && c.control == Closed && t.retries == c.retries)
  }

  lemma AddedOne(c: Client, t: Client, call: Callback)
    requires t.calls == c.calls + [call]
    ensures Added(c, t) == [call] && HasSent(Added(c, t)) == call.MessageSent?
    ensures Known([call]) ==> Reports(c, t)
  {
    assert Added(c, t)[0] == call;
  }

  lemma AddedNone(c: Client, t: Client)
    requires t.calls == c.calls
    ensures Added(c, t) == [] && Reports(c, t)
  {}

  lemma AddedMore(c: Client, t: Client, u: Client)
    requires Reports(c, t) && Reports(t, u) && (Added(c, t) == [] || NoMessage(Added(t, u)))
    ensures Reports(c, u) && (HasSent(Added(c, t)) ==> HasSent(Added(c, u)))
  {
    var a, b := Added(c, t), Added(t, u);
    assert u.calls == c.calls + a + b;
    assert Added(c, u) == a + b;
    if HasSent(a) {
      var k :| 0 <= k < |a| && a[k].MessageSent?;
      assert (a + b)[k].MessageSent?;
    }
    hide HasSent;
  }

  lemma SignOutReports(c: Client, env: Env)
    ensures Reports(c, SignOutStep(c, env)) && SignOutStep(c, env).calls == c.calls
    ensures SignOutStep(c, env).state != CONNECTED
  {
    hide SignOutRequest;
    AddedNone(c, SignOutStep(c, env));
  }

  lemma {:induction false} AnnounceKnown(entries: seq<Entry>)
    ensures forall k :: 0 <= k < |Announce(entries)| ==> Announce(entries)[k].PeerConnected?
    decreases |entries|
  {
    if entries != [] { AnnounceKnown(entries[1..]); }
  }

  lemma ControlReplyReports(c: Client, d: string, env: Env)
    requires HeaderEnd(d) != NPOS && ContentLength(d).Some?
    ensures Reports(c, ControlReply(c, d, env)) && NoMessage(Added(c, ControlReply(c, d, env)))
    ensures var u := ControlReply(c, d, env);
      u.state == CONNECTED || u.state == SIGNING_IN ==>
        u.state == c.state && u.control == c.control && u.retries == c.retries
  {
    hide HeaderEnd, ContentLength, Status, PragmaId, BodyEntries, Enter, SignOutRequest, Announce;
    var u := ControlReply(c, d, env);
    if Status(d) == 200 && c.myId == -1 {
      var added := Added(c, u);
      forall entries ensures forall k :: 0 <= k < |Announce(entries)| ==> Announce(entries)[k].PeerConnected? {
        AnnounceKnown(entries);
      }
      assert u.calls == c.calls + added;
    } else if Status(d) == 200 && c.state == SIGNING_OUT_WAITING {
      SignOutReports(c, env);
    }
  }

  lemma ControlReadsReports(c: Client, data: string, env: Env)
    requires Inv(c) && c.control == Open
    ensures Reports(c, ControlReads(c, data, env)) && Wakes(c, ControlReads(c, data, env))
  {
    hide Complete, ShouldClose, HeaderEnd, ContentLength, ControlReply, HasSent;
    var d := c.controlData + data;
    var t := c.(controlData := d);
    CompleteHasHeaders(d);
    AddedNone(c, t);
    if Complete(d) {
      var u := if ShouldClose(d) then ControlCloses(t, false, 0) else t;
      if ShouldClose(d) { AddedOne(c, u, MessageSent(0)); } else { AddedNone(c, u); }
      var v := ControlReply(u, d, env);
      ControlReplyReports(u, d, env);
      AddedMore(c, u, v);
      assert Added(c, ControlReads(c, data, env)) == Added(c, v);
    }
  }

  lemma NotificationReports(c: Client, d: string, env: Env)
    requires HeaderEnd(d) != NPOS && HeaderEnd(d) + 4 <= |d| && PragmaId(d) != -1
    ensures var u := Notification(c, d, env);
      && Reports(c, u)
      && (u.state == CONNECTED ==> u.control == c.control && u.retries == c.retries && c.state == CONNECTED)
  {
    hide HeaderEnd, Status, PragmaId, ParseEntry, BodyOf, Notice, SignOutRequest, HasSent;
    var u := Notification(c, d, env);
    if Status(d) != 200 {
      AddedOne(c, u, Disconnected);
    } else if c.myId == PragmaId(d) {
      match ParseEntry(BodyOf(d))
      case None => AddedNone(c, u);
      case Some(e) => AddedOne(c, u, if e.connected then PeerConnected(e.id, e.name) else PeerDisconnected(e.id));
    } else if BodyOf(d) == BYE {
      AddedOne(c, u, PeerDisconnected(PragmaId(d)));
    } else {
      var t := Notify(c, MessageFromPeer(PragmaId(d), BodyOf(d)));
      AddedOne(c, t, MessageFromPeer(PragmaId(d), BodyOf(d)));
      if env.observerSignsOut {
        SignOutReports(t, env);
        AddedMore(c, t, u);
      }
    }
  }

  lemma HangingReadsReports(c: Client, data: string, env: Env)
    requires HeaderEnd(c.notificationData + data) != NPOS ==> PragmaId(c.notificationData + data) != -1
    ensures Reports(c, HangingReads(c, data, env)) && Wakes(c, HangingReads(c, data, env))
  {
    hide Complete, ShouldClose, HeaderEnd, Notification, HasSent, PragmaId;
    var d := c.notificationData + data;
    var t := c.(notificationData := d);
    CompleteHasHeaders(d);
    AddedNone(c, t);
    if Complete(d) {
      var u := if ShouldClose(d) then HangingCloses(t, false, env) else t;
      AddedNone(c, u);
      NotificationReports(u, d, env);
      AddedMore(c, u, Notification(u, d, env));
      assert Added(c, HangingReads(c, data, env)) == Added(c, Notification(u, d, env));
    }
  }

  lemma ClientReports(c: Client, e: Event, env: Env)
    requires Inv(c) && Enabled(c, e) && IsSocketEvent(e)
    requires e.HangingRead? && HeaderEnd(c.notificationData + e.data) != NPOS ==> Sender(c, e) != -1
    ensures Reports(c, Step(c, e, env)) && Wakes(c, Step(c, e, env))
  {
    hide ControlReads, HangingReads, HasSent, PragmaId, HeaderEnd, SignInRequest;
    var t := Step(c, e, env);
    match e
    case ControlRead(data) => ControlReadsReports(c, data, env);
    case HangingRead(data) => HangingReadsReports(c, data, env);
    case ControlClosed(refused, err) => if refused { AddedNone(c, t); } else { AddedOne(c, t, MessageSent(err)); }
    case HangingClosed(refused) => if refused { AddedOne(c, t, Disconnected); } else { AddedNone(c, t); }
    case Retry => if env.controlConnects { AddedNone(c, t); } else { AddedOne(c, t, ConnectionFailure); }
    case _ => AddedNone(c, t);
  }

  // ---------------------------------------------------------------- steps of the system

  lemma DeliverHandled(s: System, client: Client, ch: Choice)
    requires Reports(s.client, client)
    ensures Handled(s.(client := client), Deliver(s, client, ch), HasSent(Added(s.client, client)))
  {
    ObserveAllHandled(s.(client := client), Added(s.client, client), ch);
  }

  /** A step that only lets the client act. */
  lemma DeliverKeeps(s: System, client: Client, ch: Choice)
    requires SystemInv(s) && Inv(client) && Reports(s.client, client)
    ensures var t := Deliver(s, client, ch);
      && SystemInv(t) && SamePeer(s.session, t.session)
      && (Awake(s) && Wakes(s.client, client) ==> Awake(t))
      && t.client == client && SameMail(s, t)
  {
    DeliverHandled(s, client, ch);
    hide Inv, SessionInv, Queued, WakeUpQueued, HasSent, Deliver, Known, SamePeer;
  }

  /** No message was signalled or handed over. */
  predicate SameMail(s: System, t: System) {
    && t.signalled == s.signalled && t.signalledFor == s.signalledFor
    && t.handed == s.handed && t.fates == s.fates
  }

  /** Signing out by itself makes no calls: the conductor and its queue stay as they are. */
  lemma DisconnectIs(s: System, ch: Choice)
    ensures Disconnect(s, ch) == s.(client := if s.client.myId != -1 then SignOutStep(s.client, ch.env) else s.client)
    ensures Inv(s.client) ==> Inv(Disconnect(s, ch).client)
    ensures s.client.myId != -1 || s.client.state != CONNECTED ==> Disconnect(s, ch).client.state != CONNECTED
  {
    SignOutReports(s.client, ch.env);
    if Inv(s.client) { SignOutKeeps(s.client, ch.env); }
    hide SignOutStep, Deliver, Inv;
    DeliverNothing(s, SignOutStep(s.client, ch.env), ch);
  }

  lemma DisconnectKeeps(s: System, ch: Choice)
    requires SystemInv(s)
    ensures SystemInv(Disconnect(s, ch)) && (Awake(s) ==> Awake(Disconnect(s, ch)))
  {
    DisconnectIs(s, ch);
    assert s.client.state == CONNECTED ==> s.client.myId != -1;
    hide Inv, SessionInv, Queued, WakeUpQueued, SignOutStep, Disconnect;
  }

  /** The messages a send event finds waiting, its own included. */
  function Waiting(s: System, message: Option<string>): seq<string> {
    if message.Some? then s.session.pending + [message.value] else s.session.pending
  }

  lemma SendReports(c: Client, peer: int, message: string, env: Env)
    requires Inv(c) && (c.state == CONNECTED ==> c.control == Closed)
    ensures var t := SendStep(c, peer, message, env);
      && Reports(c, t) && t.calls == c.calls && Inv(t)
      && (c.state != CONNECTED || peer == -1 ==> t == c)
      && (c.state == CONNECTED && peer != -1 ==> t.state != CONNECTED || t.control != Closed)
      && (SendSucceeds(c, peer, env) ==> t.control != Closed)
  {
    StepKeeps(c, SendMessage(peer, message), env);
    hide MessageRequest;
    AddedNone(c, SendStep(c, peer, message, env));
  }

  /** A hand-over takes the first message out, and leaves a connected client idle only for want of a peer. */
  lemma HandOverIs(s: System, ch: Choice)
    requires Inv(s.client) && s.session.pending != [] && !IsSending(s.client)
    ensures var t := HandOver(s, ch);
      && t == s.(client := t.client, session := s.session.(pending := s.session.pending[1..]),
                 handed := s.handed + [s.session.pending[0]], fates := s.fates + [FateOf(s, ch)])
      && Inv(t.client)
      && (s.client.state == CONNECTED && s.session.peerId == -1 ==> t.client == s.client)
      && (s.client.state != CONNECTED || s.session.peerId != -1 ==>
            t.client.state != CONNECTED || t.client.control != Closed)
      && (SendSucceeds(s.client, s.session.peerId, ch.env) ==> t.client.control != Closed)
  {
    var message := s.session.pending[0];
    var t := s.(session := s.session.(pending := s.session.pending[1..]), handed := s.handed + [message],
                fates := s.fates + [FateOf(s, ch)]);
    SendReports(t.client, t.session.peerId, message, ch.env);
    var client := SendStep(t.client, t.session.peerId, message, ch.env);
    DeliverNothing(t, client, ch);
    DisconnectIs(t.(client := client), ch);
    assert client.state == CONNECTED ==> client.myId != -1;
    hide SendStep, Deliver, Disconnect, SignOutStep, Inv, MessageRequest;
  }

  lemma SamePeers(a: Session, b: Session)
    requires SessionInv(a) && b == a.(pending := b.pending)
    ensures SessionInv(b) && SamePeer(a, b)
  {}

  lemma QueuedHead(queue: seq<UiEvent>)
    requires queue != []
    ensures Queued(queue) ==
      (if queue[0].Send? && queue[0].message.Some? then [queue[0].message.value] else []) + Queued(queue[1..])
    ensures !queue[0].Send? && WakeUpQueued(queue) ==> WakeUpQueued(queue[1..])
  {
    if !queue[0].Send? && WakeUpQueued(queue) {
      var i :| 0 <= i < |queue| && queue[i].Send?;
      assert queue[1..][i - 1].Send?;
    }
  }

  /** What handling one send event does, with the event already taken out of the queue. */
  lemma SendTurnIs(s: System, message: Option<string>, ch: Choice)
    requires Inv(s.client) && SessionInv(s.session)
    ensures var t, waiting := SendTurn(s, message, ch), Waiting(s, message);
      if waiting != [] && !IsSending(s.client) then t == HandOver(s.(session := s.session.(pending := waiting)), ch)
      else t == s.(session := s.session.(pending := waiting))
  {
    var waiting := Waiting(s, message);
    var t := s.(session := s.session.(pending := waiting));
    if waiting != [] && !IsSending(t.client) { HandOverIs(t, ch); }
    hide Inv, HandOver;
    var u := if waiting != [] && !IsSending(t.client) then HandOver(t, ch) else t;
    assert !u.session.connection ==> u.session.(peerId := -1) == u.session;
  }

  lemma SendTurnKeeps(s: System, message: Option<string>, ch: Choice)
    requires Inv(s.client) && SessionInv(s.session)
    requires s.handed + s.session.pending + ((if message.Some? then [message.value] else []) + Queued(s.queue))
          == s.signalled
    ensures SystemInv(SendTurn(s, message, ch)) && SamePeer(s.session, SendTurn(s, message, ch).session)
  {
    var waiting := Waiting(s, message);
    var t := s.(session := s.session.(pending := waiting));
    Joins(s.handed, s.session.pending, if message.Some? then [message.value] else [], Queued(s.queue));
    SendTurnIs(s, message, ch);
    SamePeers(s.session, t.session);
    assert s.session.pending + [] == s.session.pending;
    hide Inv, SessionInv, Queued, SendTurn, HandOver, SamePeer;
    if waiting != [] && !IsSending(t.client) {
      HandOverIs(t, ch);
      var u := HandOver(t, ch);
      TakesFirst(s.handed, waiting, Queued(s.queue));
      SamePeers(s.session, u.session);
    }
  }

  lemma Joins(handed: seq<string>, pending: seq<string>, more: seq<string>, queued: seq<string>)
    ensures handed + pending + (more + queued) == handed + (pending + more) + queued
  {}

  lemma TakesFirst(handed: seq<string>, waiting: seq<string>, queued: seq<string>)
    requires waiting != []
    ensures handed + [waiting[0]] + waiting[1..] + queued == handed + waiting + queued
  {
    assert waiting == [waiting[0]] + waiting[1..];
  }

  /** Whether a wake-up is left once the send event is handled. */
  lemma SendTurnWakes(s: System, message: Option<string>, ch: Choice)
    requires Inv(s.client) && SessionInv(s.session)
    ensures Awake(SendTurn(s, message, ch)) <==>
      !(&& s.client.state == CONNECTED && s.client.control == Closed && s.session.peerId == -1
        && |Waiting(s, message)| > 1 && !WakeUpQueued(s.queue) && s.client.retries == 0)
  {
    var waiting := Waiting(s, message);
    SendTurnIs(s, message, ch);
    hide Inv, SessionInv, WakeUpQueued, SendTurn, HandOver, Waiting;
    if waiting != [] && !IsSending(s.client) { HandOverIs(s.(session := s.session.(pending := waiting)), ch); }
  }

  /**
    The one step that lets waiting messages sleep: a hand-over on a connected, idle client without a
    peer, with a further message waiting and nothing else that will look at it.
   */
  predicate SleepyHandOver(s: System, a: Action) {
    && a.UiTurn? && s.queue != [] && s.queue[0].Send?
    && s.client.state == CONNECTED && s.client.control == Closed && s.session.peerId == -1
    && |Waiting(s, s.queue[0].message)| > 1 && !WakeUpQueued(s.queue[1..]) && s.client.retries == 0
  }

  lemma UiStepKeeps(s: System, ch: Choice)
    requires SystemInv(s) && s.queue != []
    ensures SystemInv(UiStep(s, ch)) && SamePeer(s.session, UiStep(s, ch).session)
    ensures Awake(s) ==> (Awake(UiStep(s, ch)) <==> !SleepyHandOver(s, UiTurn))
  {
    hide Inv, Queued, WakeUpQueued, SendTurn, Disconnect;
    var t := s.(queue := s.queue[1..]);
    QueuedHead(s.queue);
    match s.queue[0]
    case ConnectionClosed(_) =>
      var u := t.(session := DeletePeerConnection(t.session));
      assert [] + Queued(t.queue) == Queued(t.queue);
      DisconnectIs(u, ch);
      DisconnectKeeps(u, ch);
    case Send(message) =>
      SendTurnKeeps(t, message, ch);
      SendTurnWakes(t, message, ch);
    case Track => assert [] + Queued(t.queue) == Queued(t.queue);
  }

  lemma DeleteKeeps(s: System)
    requires SystemInv(s)
    ensures var t := s.(session := DeletePeerConnection(s.session)); SystemInv(t) && (Awake(s) ==> Awake(t))
  {}

  lemma HangUpKeeps(s: System, ch: Choice)
    requires SystemInv(s) && CanAct(s, DisconnectFromCurrentPeer)
    ensures var t := Act(s, DisconnectFromCurrentPeer, ch);
      SystemInv(t) && SamePeer(s.session, t.session) && (Awake(s) ==> Awake(t)) && SameMail(s, t)
  {
    if s.session.connection {
      SendReports(s.client, s.session.peerId, BYE, ch.env);
      var client := SendStep(s.client, s.session.peerId, BYE, ch.env);
      hide Inv, Queued, WakeUpQueued, HasSent, Deliver, Known, SendStep;
      DeliverKeeps(s, client, ch);
      DeleteKeeps(Deliver(s, client, ch));
    }
  }

  lemma SocketKeeps(s: System, e: Event, ch: Choice)
    requires SystemInv(s) && CanAct(s, Socket(e))
    ensures var t := Act(s, Socket(e), ch);
      SystemInv(t) && SamePeer(s.session, t.session) && (Awake(s) ==> Awake(t)) && SameMail(s, t)
  {
    var env := ch.env.(observerSignsOut := SignsOut(s.session, Sender(s.client, e), ch.kind, ch.factoryOk));
    ClientReports(s.client, e, env);
    StepKeeps(s.client, e, env);
    hide Inv, SessionInv, Queued, WakeUpQueued, HasSent, Deliver, Known, PeerClient.Step, Enabled, ServerAssignsId;
    hide SamePeer;
    DeliverKeeps(s, PeerClient.Step(s.client, e, env), ch);
  }

  lemma LoginReports(c: Client, server: string, name: string, env: Env)
    ensures var t := ConnectStep(c, server, name, env);
      && Reports(c, t) && (t.calls == c.calls || t.calls == c.calls + [ConnectionFailure])
      && (c.state != CONNECTED ==> t.state != CONNECTED)
  {
    hide SignInRequest;
    var t := ConnectStep(c, server, name, env);
    if t.calls == c.calls { AddedNone(c, t); } else { AddedOne(c, t, ConnectionFailure); }
  }

  lemma LoginKeeps(s: System, server: string, name: string, ch: Choice)
    requires SystemInv(s)
    ensures var t := Act(s, StartLogin(server, name), ch);
      SystemInv(t) && SamePeer(s.session, t.session) && (Awake(s) ==> Awake(t)) && SameMail(s, t)
  {
    if s.client.myId == -1 {
      var client := ConnectStep(s.client, server, name, ch.env);
      StepKeeps(s.client, Event.Connect(server, name), ch.env);
      LoginReports(s.client, server, name, ch.env);
      assert s.client.state != CONNECTED;
      hide Inv, SessionInv, Queued, WakeUpQueued, HasSent, Deliver, Known, ConnectStep, SamePeer;
      DeliverKeeps(s, client, ch);
    }
  }

  lemma CloseKeeps(s: System, ch: Choice)
    requires SystemInv(s)
    ensures var t := Act(s, CloseWindow, ch);
      SystemInv(t) && SamePeer(s.session, t.session) && (Awake(s) ==> Awake(t)) && SameMail(s, t)
  {
    SignOutReports(s.client, ch.env);
    SignOutKeeps(s.client, ch.env);
    hide Inv, Queued, WakeUpQueued, HasSent, Deliver, Known, SignOutStep;
    DeliverKeeps(s, SignOutStep(s.client, ch.env), ch);
    DeleteKeeps(Deliver(s, SignOutStep(s.client, ch.env), ch));
  }

  lemma SignalKeeps(s: System, a: Action, ch: Choice)
    requires SystemInv(s) && (a.Signal? || a.TrackChanged?)
    ensures var t := Act(s, a, ch); SystemInv(t) && t.session == s.session && (Awake(s) ==> Awake(t))
  {
    var e := if a.Signal? then Send(Some(a.message)) else Track;
    QueuedPush(s.queue, e);
    WakeUpPush(s.queue, e);
    hide Queued, WakeUpQueued;
  }

  /**
    Every action keeps the invariants and the peer of a session that lasts through it, and waiting
    messages lose their wake-up in exactly one case.
   */
  lemma ActKeeps(s: System, a: Action, ch: Choice)
    requires SystemInv(s) && CanAct(s, a)
    ensures SystemInv(Act(s, a, ch))
    ensures SamePeer(s.session, Act(s, a, ch).session)
    ensures Awake(s) ==> (Awake(Act(s, a, ch)) <==> !SleepyHandOver(s, a))
  {
    hide Inv, Queued, WakeUpQueued, Deliver, SocketStep, UiStep, Disconnect, ConnectStep, SignOutStep, SendStep;
    match a
    case Socket(e) => SocketKeeps(s, e, ch);
    case StartLogin(server, name) => LoginKeeps(s, server, name, ch);
    case DisconnectFromServer =>
      DisconnectIs(s, ch);
      DisconnectKeeps(s, ch);
    case UserConnects(peer) => ConnectToPeerKeeps(s.session, peer, ch.factoryOk);
    case DisconnectFromCurrentPeer => HangUpKeeps(s, ch);
    case CloseWindow => CloseKeeps(s, ch);
    case Signal(message) => SignalKeeps(s, a, ch);
    case TrackChanged => SignalKeeps(s, a, ch);
    case UiTurn => UiStepKeeps(s, ch);
  }
}
