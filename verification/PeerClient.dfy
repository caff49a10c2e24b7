/**
  The signalling client of PjWebrtc/peer_connection_client.cc as a transition system. Two sockets to
  the server, the control socket and the hanging GET, deliver connect, read and close events in any
  order; the user calls Connect, SendToPeer and SignOut. What the environment decides inside one
  event, such as whether a Connect succeeds, is the event's `Env`.
 */
module PeerClient {
  import opened Text
  import opened HttpFraming
  import opened PeerEntries

  datatype State = NOT_CONNECTED | SIGNING_IN | CONNECTED | SIGNING_OUT_WAITING | SIGNING_OUT

  datatype Socket = Closed | Connecting | Open

  /** A call on the registered observer. */
  datatype Callback =
    | SignedIn
    | Disconnected
    | PeerConnected(id: int, name: string)
    | PeerDisconnected(id: int)
    | MessageFromPeer(id: int, text: string)
    | MessageSent(err: int)
    | ConnectionFailure

  /** What went out on the control socket. `ticket` numbers the connects, one request each. */
  datatype Request = Request(ticket: nat, text: string)

  /**
    `staged` is onconnect_data_, `retries` the reconnect timers posted and not yet fired. History: the
    calls on the observer, the connects of the control socket so far, and what was sent on it.
   */
  datatype Client = Client(
    state: State, myId: int, peers: Peers,
    control: Socket, hanging: Socket,
    staged: string, controlData: string, notificationData: string,
    name: string, retries: nat,
    calls: seq<Callback>, ticket: nat, sent: seq<Request>)

  const INIT := Client(NOT_CONNECTED, -1, map[], Closed, Closed, "", "", "", "", 0, [], 0, [])

  datatype Env = Env(controlConnects: bool, hangingConnects: bool, hangingReconnects: bool, observerSignsOut: bool)

  datatype Event =
    | Connect(server: string, name: string)
    | SendMessage(peer: int, message: string)
    | SignOut
    | ControlConnected
    | ControlRead(data: string)
    | ControlClosed(refused: bool, err: int)
    | HangingConnected
    | HangingRead(data: string)
    | HangingClosed(refused: bool)
    | Retry

  const BYE := "BYE"

  // ---------------------------------------------------------------- requests and replies as text

  /** snprintf into a buffer of 1024 characters. */
  function Printf(s: string): string {
    if |s| < 1024 then s else s[..1023]
  }

  function SignInRequest(name: string): (r: string)
    ensures r != []
  {
    Printf("GET /sign_in?" + name + " HTTP/1.0\r\n\r\n")
  }

  function SignOutRequest(id: int): (r: string)
    ensures r != []
  {
    Printf("GET /sign_out?peer_id=" + Decimal(id) + " HTTP/1.0\r\n\r\n")
  }

  function MessageRequest(id: int, peer: int, message: string): (r: string)
    ensures r != []
  {
    Printf("POST /message?peer_id=" + Decimal(id) + "&to=" + Decimal(peer) + " HTTP/1.0\r\n"
           + "Content-Length: " + Decimal(|message|) + "\r\nContent-Type: text/plain\r\n\r\n") + message
  }

  function Status(response: string): int {
    var pos := Find(response, " ", 0);
    if pos == NPOS then -1 else Atoi(response, pos + 1)
  }

  /** static_cast<int> of a size_t. */
  function ToInt(n: nat): int {
    var low := n % 0x1_0000_0000;
    if low < 0x8000_0000 then low else low - 0x1_0000_0000
  }

  /** The Pragma header's number; without the header peer_id stays -1. */
  function PragmaId(response: string): int
    requires HeaderEnd(response) != NPOS
  {
    match HeaderSize(response, HeaderEnd(response), PRAGMA)
    case None => -1
    case Some(n) => ToInt(n)
  }

  function BodyOf(response: string): string
    requires HeaderEnd(response) != NPOS
  {
    response[HeaderEnd(response) + 4..]
  }

  lemma CompleteHasHeaders(d: string)
    ensures Complete(d) ==> HeaderEnd(d) != NPOS && HeaderEnd(d) + 4 <= |d| && ContentLength(d).Some?
  {}

  // ---------------------------------------------------------------- the methods

  function Notify(c: Client, call: Callback): Client {
    c.(calls := c.calls + [call])
  }

  function Close(c: Client): Client {
    c.(control := Closed, hanging := Closed, staged := "", peers := map[], myId := -1, state := NOT_CONNECTED)
  }

  function ConnectControl(c: Client, ok: bool): Client {
    if ok then c.(control := Connecting, ticket := c.ticket + 1) else Close(c)
  }

  function ConnectHanging(c: Client, ok: bool): Client {
    c.(hanging := if ok then Connecting else Closed)
  }

  function DoConnect(c: Client, env: Env): Client {
    var t := c.(control := Closed, hanging := Closed, staged := SignInRequest(c.name));
    if env.controlConnects then ConnectControl(t, true).(state := SIGNING_IN)
    else Notify(ConnectControl(t, false), ConnectionFailure)
  }

  function ConnectStep(c: Client, server: string, name: string, env: Env): Client {
    if c.state != NOT_CONNECTED || server == "" || name == "" then Notify(c, ConnectionFailure)
    else DoConnect(c.(name := name), env)
  }

  function IsSending(c: Client): bool {
    c.state == CONNECTED && c.control != Closed
  }

  predicate SendSucceeds(c: Client, peer: int, env: Env) {
    c.state == CONNECTED && c.myId != -1 && peer != -1 && env.controlConnects
  }

  function SendStep(c: Client, peer: int, message: string, env: Env): Client {
    if c.state != CONNECTED || c.myId == -1 || peer == -1 then c
    else ConnectControl(c.(staged := MessageRequest(c.myId, peer, message)), env.controlConnects)
  }

  function SignOutStep(c: Client, env: Env): Client {
    if c.state == NOT_CONNECTED || c.state == SIGNING_OUT then c
    else
      var t := c.(hanging := Closed);
      if t.control != Closed then t.(state := SIGNING_OUT_WAITING)
      else if t.myId == -1 then t.(state := SIGNING_OUT)
      else ConnectControl(t.(state := SIGNING_OUT, staged := SignOutRequest(t.myId)), env.controlConnects)
  }

  function ControlCloses(c: Client, refused: bool, err: int): Client {
    var t := c.(control := Closed);
    if refused then t.(retries := t.retries + 1) else Notify(t, MessageSent(err))
  }

  function HangingCloses(c: Client, refused: bool, env: Env): Client {
    var t := c.(hanging := Closed);
    if refused then Notify(Close(t), Disconnected)
    else if t.state == CONNECTED then ConnectHanging(t, env.hangingConnects)
    else t
  }

  function Announce(entries: seq<Entry>): seq<Callback> {
    if entries == [] then [] else [PeerConnected(entries[0].id, entries[0].name)] + Announce(entries[1..])
  }

  /** The first reply: our id, and the peers that were there before us. */
  function SignInReply(c: Client, d: string): Client
    requires HeaderEnd(d) != NPOS && ContentLength(d).Some?
  {
    var id := PragmaId(d);
    var entries := if ContentLength(d).value != 0 then BodyEntries(d, HeaderEnd(d) + 4, id) else [];
    c.(myId := id, peers := Enter(c.peers, entries), calls := c.calls + Announce(entries) + [SignedIn])
  }

  function ControlReply(c: Client, d: string, env: Env): Client
    requires HeaderEnd(d) != NPOS && ContentLength(d).Some?
  {
    if Status(d) != 200 then Notify(Close(c), Disconnected)
    else if c.myId == -1 then SignInReply(c, d)
    else if c.state == SIGNING_OUT then Notify(Close(c), Disconnected)
    else if c.state == SIGNING_OUT_WAITING then SignOutStep(c, env)
    else c
  }

  function ControlReads(c: Client, chunk: string, env: Env): Client {
    var d := c.controlData + chunk;
    var t := c.(controlData := d);
    if !Complete(d) then t
    else
      var u := ControlReply(if ShouldClose(d) then ControlCloses(t, false, 0) else t, d, env).(controlData := "");
      if u.state == SIGNING_IN then ConnectHanging(u.(state := CONNECTED), env.hangingConnects) else u
  }

  /** A notification about a member, or a message from a peer. */
  function Notification(c: Client, d: string, env: Env): Client
    requires HeaderEnd(d) != NPOS && HeaderEnd(d) + 4 <= |d|
  {
    if Status(d) != 200 then Notify(Close(c), Disconnected)
    else if c.myId == PragmaId(d) then
      match ParseEntry(BodyOf(d))
      case None => c
      case Some(e) =>
        Notify(c.(peers := Notice(c.peers, e)),
               if e.connected then PeerConnected(e.id, e.name) else PeerDisconnected(e.id))
    else if BodyOf(d) == BYE then Notify(c, PeerDisconnected(PragmaId(d)))
    else
      var t := Notify(c, MessageFromPeer(PragmaId(d), BodyOf(d)));
      if env.observerSignsOut then SignOutStep(t, env) else t
  }

  function HangingReads(c: Client, chunk: string, env: Env): Client {
    var d := c.notificationData + chunk;
    var t := c.(notificationData := d);
    var u :=
      if !Complete(d) then t
      else Notification(if ShouldClose(d) then HangingCloses(t, false, env) else t, d, env).(notificationData := "");
    if u.hanging == Closed && u.state == CONNECTED then ConnectHanging(u, env.hangingReconnects) else u
  }

  // ---------------------------------------------------------------- runs

  /** A closed socket is silent, and SendToPeer is called when its checks allow it. */
  predicate Enabled(c: Client, e: Event) {
    match e
    case Connect(_, _) => true
    case SendMessage(_, _) => c.state == CONNECTED ==> c.control == Closed
    case SignOut => true
    case ControlConnected => c.control == Connecting
    case ControlRead(_) => c.control == Open
    case ControlClosed(_, _) => c.control != Closed
    case HangingConnected => c.hanging == Connecting
    case HangingRead(_) => c.hanging == Open
    case HangingClosed(_) => c.hanging != Closed
    case Retry => c.retries > 0
  }

  /** The server answers a sign-in with an id other than -1. */
  predicate ServerAssignsId(c: Client, e: Event) {
    e.ControlRead? && c.myId == -1 ==>
      var d := c.controlData + e.data;
      Complete(d) && Status(d) == 200 ==> PragmaId(d) != -1
  }

  function Step(c: Client, e: Event, env: Env): Client
    requires Enabled(c, e)
  {
    match e
    case Connect(server, name) => ConnectStep(c, server, name, env)
    case SendMessage(peer, message) => SendStep(c, peer, message, env)
    case SignOut => SignOutStep(c, env)
    case ControlConnected =>
      c.(control := Open, staged := "", sent := c.sent + [Request(c.ticket, c.staged)])
    case ControlRead(data) => ControlReads(c, data, env)
    case ControlClosed(refused, err) => ControlCloses(c, refused, err)
    case HangingConnected => c.(hanging := Open)
    case HangingRead(data) => HangingReads(c, data, env)
    case HangingClosed(refused) => HangingCloses(c, refused, env)
    case Retry => DoConnect(c.(retries := c.retries - 1), env)
  }

  datatype Input = Input(event: Event, env: Env)

  predicate CanRun(c: Client, run: seq<Input>)
    decreases |run|
  {
    run == [] ||
    (Enabled(c, run[0].event) && ServerAssignsId(c, run[0].event) &&
     CanRun(Step(c, run[0].event, run[0].env), run[1..]))
  }

  function Run(c: Client, run: seq<Input>): Client
    requires CanRun(c, run)
    decreases |run|
  {
    if run == [] then c else Run(Step(c, run[0].event, run[0].env), run[1..])
  }

  // ---------------------------------------------------------------- the state invariant

  predicate Inv(c: Client) {
    && (c.hanging != Closed ==> c.state == CONNECTED)
    && (c.state == CONNECTED ==> c.myId != -1)
    && (c.myId == -1 ==> c.peers == map[])
    && (c.state == NOT_CONNECTED ==>
          c.myId == -1 && c.peers == map[] && c.control == Closed && c.hanging == Closed && c.staged == "")
    && (c.control == Connecting ==> c.staged != "")
    && (c.control != Closed && c.myId == -1 ==> c.state == SIGNING_IN || c.state == SIGNING_OUT_WAITING)
  }

  lemma ControlReplyKeeps(c: Client, d: string, env: Env)
    requires HeaderEnd(d) != NPOS && ContentLength(d).Some?
    requires Inv(c) && (c.state == SIGNING_IN || c.myId != -1 || c.state == SIGNING_OUT_WAITING)
    requires c.myId == -1 && Status(d) == 200 ==> PragmaId(d) != -1
    ensures var u := ControlReply(c, d, env); Inv(u) && (u.state == SIGNING_IN ==> u.myId != -1)
  {
    hide ContentLength, Status, PragmaId, HeaderEnd, BodyEntries, Enter, Announce, SignOutRequest;
  }

  lemma ControlReadKeeps(c: Client, data: string, env: Env)
    requires Inv(c) && c.control == Open && ServerAssignsId(c, ControlRead(data))
    ensures Inv(ControlReads(c, data, env))
  {
    hide Complete, ShouldClose, HeaderEnd, ContentLength, Status, PragmaId, ControlReply;
    var d := c.controlData + data;
    CompleteHasHeaders(d);
    if Complete(d) {
      var t := c.(controlData := d);
      ControlReplyKeeps(if ShouldClose(d) then ControlCloses(t, false, 0) else t, d, env);
    }
  }

  lemma SignOutKeeps(c: Client, env: Env)
    requires Inv(c)
    ensures Inv(SignOutStep(c, env))
  {
    hide SignOutRequest;
  }

  lemma NotificationKeeps(c: Client, d: string, env: Env)
    requires HeaderEnd(d) != NPOS && HeaderEnd(d) + 4 <= |d|
    requires Inv(c) && c.state == CONNECTED
    ensures Inv(Notification(c, d, env))
  {
    hide Status, PragmaId, ParseEntry, BodyOf, Notice, HeaderEnd, SignOutStep;
    SignOutKeeps(Notify(c, MessageFromPeer(PragmaId(d), BodyOf(d))), env);
  }

  lemma HangingReadKeeps(c: Client, data: string, env: Env)
    requires Inv(c) && c.hanging == Open
    ensures Inv(HangingReads(c, data, env))
  {
    hide Complete, ShouldClose, HeaderEnd, Notification;
    var d := c.notificationData + data;
    CompleteHasHeaders(d);
    if Complete(d) {
      var t := c.(notificationData := d);
      NotificationKeeps(if ShouldClose(d) then HangingCloses(t, false, env) else t, d, env);
    }
  }

  lemma StepKeeps(c: Client, e: Event, env: Env)
    requires Inv(c) && Enabled(c, e) && ServerAssignsId(c, e)
    ensures Inv(Step(c, e, env))
  {
    hide ControlReads, HangingReads, ServerAssignsId;
    match e
    case ControlRead(data) => ControlReadKeeps(c, data, env);
    case HangingRead(data) => HangingReadKeeps(c, data, env);
    case _ =>
  }

  lemma {:induction false} RunKeeps(c: Client, run: seq<Input>)
    requires Inv(c) && CanRun(c, run)
    ensures Inv(Run(c, run))
    decreases |run|
  {
    if run != [] {
      StepKeeps(c, run[0].event, run[0].env);
      RunKeeps(Step(c, run[0].event, run[0].env), run[1..]);
    }
  }

  /** The client's bookkeeping, in every state any run reaches. */
  lemma StateInvariant(run: seq<Input>)
    requires CanRun(INIT, run)
    ensures var c := Run(INIT, run);
      && (c.hanging != Closed ==> c.state == CONNECTED && c.myId != -1)
      && (c.myId == -1 ==> c.peers == map[])
      && (c.state == NOT_CONNECTED ==>
            c.myId == -1 && c.peers == map[] && c.control == Closed && c.hanging == Closed && c.staged == "")
      && (c.control == Connecting ==> c.staged != "")
  {
    RunKeeps(INIT, run);
  }
}
