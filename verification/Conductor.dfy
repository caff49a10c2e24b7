/**
  The conductor of PjWebrtc/conductor.cc together with the signalling client and the queue of the UI
  thread. The conductor owns one peer session at a time and a deque of outgoing messages; everything
  it sends goes through the UI queue, and the client tells it, through the same queue, when the
  control socket is free again.
 */
module Conductor {
  import opened Text
  import opened HttpFraming
  import opened PeerClient

  /**
    What QueueUIThreadCallback posts. A Send without a message only asks for the next pending one. The
    code posts a closed connection without saying whose; the peer is history, for the properties.
   */
  datatype UiEvent = ConnectionClosed(peer: int) | Send(message: Option<string>) | Track

  /** A description or candidate handed to the connection: who sent it, and the message it came in. */
  datatype Applied = Applied(peer: int, text: string)

  /** `applied` is history: what the present connection was handed, in order. */
  datatype Session = Session(peerId: int, loopback: bool, connection: bool, factory: bool,
                             pending: seq<string>, applied: seq<Applied>)

  /** How the text of a received message reads, and what the media library answers. */
  datatype MessageKind =
    | Unparsable
    | OfferLoopback(recreated: bool)
    | Rejected
    | Description(offer: bool)
    | Candidate(accepted: bool)

  const IDLE := Session(-1, false, false, false, [], [])

  // ---------------------------------------------------------------- the session

  function DeletePeerConnection(c: Session): Session {
    c.(connection := false, factory := false, peerId := -1, loopback := false, applied := [])
  }

  /** With the assumption that the factory, once created, can create a connection. */
  function InitializePeerConnection(c: Session, factoryOk: bool): Session {
    if factoryOk then c.(factory := true, connection := true) else DeletePeerConnection(c)
  }

  function OnMessage(c: Session, peer: int, text: string, kind: MessageKind): Session {
    match kind
    case Unparsable => c
    case OfferLoopback(recreated) =>
      if recreated then c.(loopback := true) else DeletePeerConnection(c)
    case Rejected => c
    case Description(_) => c.(applied := c.applied + [Applied(peer, text)])
    case Candidate(accepted) => if accepted then c.(applied := c.applied + [Applied(peer, text)]) else c
  }

  function OnMessageFromPeer(c: Session, peer: int, text: string, kind: MessageKind, factoryOk: bool): Session {
    if !c.connection then
      var t := InitializePeerConnection(c.(peerId := peer), factoryOk);
      if factoryOk then OnMessage(t, peer, text, kind) else t
    else if peer != c.peerId then c
    else OnMessage(c, peer, text, kind)
  }

  /** Whether OnMessageFromPeer signs out of the server. */
  predicate SignsOut(c: Session, peer: int, kind: MessageKind, factoryOk: bool) {
    || (!c.connection && !factoryOk)
    || ((!c.connection || peer == c.peerId) && kind.OfferLoopback? && !kind.recreated)
  }

  function ConnectToPeer(c: Session, peer: int, factoryOk: bool): Session {
    if c.connection then c
    else
      var t := InitializePeerConnection(c, factoryOk);
      if t.connection then t.(peerId := peer) else t
  }

  // ---------------------------------------------------------------- the whole system

  /** What becomes of a message that is handed over: SendToPeer accepts it for a peer, or it is gone. */
  datatype Fate = GivenTo(peer: int) | Dropped

  /**
    History: `signalled` are the messages in the order they were produced and `handed` those given to
    SendToPeer; `signalledFor` is the session's peer when a message was signalled.
   */
  datatype System = System(client: Client, session: Session, queue: seq<UiEvent>,
                           signalled: seq<string>, handed: seq<string>,
                           signalledFor: seq<int>, fates: seq<Fate>)

  const START := System(PeerClient.INIT, IDLE, [], [], [], [], [])

  /** The environment's choices within one step. */
  datatype Choice = Choice(env: Env, kind: MessageKind, factoryOk: bool, window: bool)

  datatype Action =
    | Socket(event: Event)
    | StartLogin(server: string, name: string)
    | DisconnectFromServer
    | UserConnects(peer: int)
    | DisconnectFromCurrentPeer
    | CloseWindow
    | Signal(message: string)
    | TrackChanged
    | UiTurn

  /** One observer call, as the conductor handles it. */
  function Observe(s: System, call: Callback, ch: Choice): System {
    match call
    case MessageSent(_) => s.(queue := s.queue + [Send(None)])
    case Disconnected => s.(session := DeletePeerConnection(s.session))
    case PeerDisconnected(id) =>
      if id == s.session.peerId then s.(queue := s.queue + [ConnectionClosed(id)]) else s
    case MessageFromPeer(id, text) => s.(session := OnMessageFromPeer(s.session, id, text, ch.kind, ch.factoryOk))
    case _ => s
  }

  function ObserveAll(s: System, calls: seq<Callback>, ch: Choice): System {
    if calls == [] then s else Observe(ObserveAll(s, calls[..|calls| - 1], ch), calls[|calls| - 1], ch)
  }

  /** The client has moved on; the conductor handles the calls that move made on it. */
  function Deliver(s: System, client: Client, ch: Choice): System {
    ObserveAll(s.(client := client),
               if |s.client.calls| <= |client.calls| then client.calls[|s.client.calls|..] else [], ch)
  }

  /** The peer whose message a hanging-GET read would pass on. */
  function Sender(c: Client, e: Event): int {
    if !e.HangingRead? then -1
    else
      var d := c.notificationData + e.data;
      if HeaderEnd(d) == NPOS then -1 else PragmaId(d)
  }

  /** The client's step, with the observer signing out exactly when this conductor does. */
  function SocketStep(s: System, e: Event, ch: Choice): System
    requires Enabled(s.client, e)
  {
    var env := ch.env.(observerSignsOut := SignsOut(s.session, Sender(s.client, e), ch.kind, ch.factoryOk));
    Deliver(s, PeerClient.Step(s.client, e, env), ch)
  }

  function Disconnect(s: System, ch: Choice): System {
    if s.client.myId != -1 then Deliver(s, SignOutStep(s.client, ch.env), ch) else s
  }

  /** The SEND_MESSAGE_TO_PEER branch of UIThreadCallback. */
  function SendTurn(s: System, message: Option<string>, ch: Choice): System {
    var waiting := if message.Some? then s.session.pending + [message.value] else s.session.pending;
    var t := s.(session := s.session.(pending := waiting));
    var u := if waiting != [] && !IsSending(t.client) then HandOver(t, ch) else t;
    if u.session.connection then u else u.(session := u.session.(peerId := -1))
  }

  function FateOf(s: System, ch: Choice): Fate {
    if SendSucceeds(s.client, s.session.peerId, ch.env) then GivenTo(s.session.peerId) else Dropped
  }

  function HandOver(s: System, ch: Choice): System
    requires s.session.pending != []
  {
    var message := s.session.pending[0];
    var t := s.(session := s.session.(pending := s.session.pending[1..]), handed := s.handed + [message],
                fates := s.fates + [FateOf(s, ch)]);
    var u := Deliver(t, SendStep(t.client, t.session.peerId, message, ch.env), ch);
    if !SendSucceeds(t.client, t.session.peerId, ch.env) && t.session.peerId != -1 then Disconnect(u, ch) else u
  }

  function UiStep(s: System, ch: Choice): System
    requires s.queue != []
  {
    var t := s.(queue := s.queue[1..]);
    match s.queue[0]
    case ConnectionClosed(_) =>
      var u := t.(session := DeletePeerConnection(t.session));
      if ch.window then u else Disconnect(u, ch)
    case Send(message) => SendTurn(t, message, ch)
    case Track => t
  }

  predicate IsSocketEvent(e: Event) {
    !e.Connect? && !e.SendMessage? && !e.SignOut?
  }

  /** Peer ids are never -1, and hanging up respects SendToPeer's check that no message is on its way. */
  predicate CanAct(s: System, a: Action) {
    match a
    case Socket(e) =>
      && IsSocketEvent(e) && Enabled(s.client, e) && ServerAssignsId(s.client, e)
      && (e.HangingRead? && HeaderEnd(s.client.notificationData + e.data) != NPOS ==> Sender(s.client, e) != -1)
    case UserConnects(peer) => peer != -1
    case DisconnectFromCurrentPeer =>
      s.session.connection ==> Enabled(s.client, SendMessage(s.session.peerId, BYE))
    case UiTurn => s.queue != []
    case _ => true
  }

  function Act(s: System, a: Action, ch: Choice): System
    requires CanAct(s, a)
  {
    match a
    case Socket(e) => SocketStep(s, e, ch)
    case StartLogin(server, name) =>
      if s.client.myId != -1 then s else Deliver(s, ConnectStep(s.client, server, name, ch.env), ch)
    case DisconnectFromServer => Disconnect(s, ch)
    case UserConnects(peer) => s.(session := ConnectToPeer(s.session, peer, ch.factoryOk))
    case DisconnectFromCurrentPeer =>
      if !s.session.connection then s
      else
        var t := Deliver(s, SendStep(s.client, s.session.peerId, BYE, ch.env), ch);
        t.(session := DeletePeerConnection(t.session))
    case CloseWindow =>
      var t := Deliver(s, SignOutStep(s.client, ch.env), ch);
      t.(session := DeletePeerConnection(t.session))
    case Signal(message) =>
      if s.session.loopback then s
      else s.(queue := s.queue + [Send(Some(message))], signalled := s.signalled + [message],
              signalledFor := s.signalledFor + [s.session.peerId])
    case TrackChanged => s.(queue := s.queue + [Track])
    case UiTurn => UiStep(s, ch)
  }

  datatype Turn = Turn(action: Action, choice: Choice)

  predicate CanPlay(s: System, run: seq<Turn>)
    decreases |run|
  {
    run == [] || (CanAct(s, run[0].action) && CanPlay(Act(s, run[0].action, run[0].choice), run[1..]))
  }

  function Play(s: System, run: seq<Turn>): System
    requires CanPlay(s, run)
    decreases |run|
  {
    if run == [] then s else Play(Act(s, run[0].action, run[0].choice), run[1..])
  }
}
