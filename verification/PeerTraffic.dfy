/**
  The signalling client from outside, event by event: what arrives, what the observer is told of it and
  in which order, which requests go to the server and under which ids. `PeerRuns` lifts this to runs.
 */
module PeerTraffic {
  import opened Text
  import opened HttpFraming
  import opened PeerEntries
  import opened PeerClient

  // ---------------------------------------------------------------- what arrives on the hanging GET

  /** A refusal by the server, a change of membership, or words of a peer. */
  datatype News = Nothing | Refusal | Member(entry: Entry) | Words(id: int, text: string)

  function NewsOf(myId: int, d: string): News {
    if !Complete(d) then Nothing
    else if Status(d) != 200 then Refusal
    else if PragmaId(d) != myId then Words(PragmaId(d), BodyOf(d))
    else
      match ParseEntry(BodyOf(d))
      case None => Nothing
      case Some(entry) => Member(entry)
  }

  function NewsIn(c: Client, e: Event): News {
    if e.HangingRead? then NewsOf(c.myId, c.notificationData + e.data) else Nothing
  }

  /** What the observer is to hear of it. */
  function Told(news: News): seq<Callback> {
    match news
    case Nothing => []
    case Refusal => [Disconnected]
    case Member(e) => if e.connected then [PeerConnected(e.id, e.name)] else [PeerDisconnected(e.id)]
    case Words(id, text) => if text == "BYE" then [PeerDisconnected(id)] else [MessageFromPeer(id, text)]
  }

  /** The observer is handed a message, and signs out in answer to it. */
  predicate SignsOutInAnswer(news: News, env: Env) {
    news.Words? && news.text != "BYE" && env.observerSignsOut
  }

  // ---------------------------------------------------------------- what signing out does

  /** The request it sends at once: none while another is under way, or without an id. */
  function SigningOut(c: Client, env: Env): seq<string> {
    if c.state != NOT_CONNECTED && c.state != SIGNING_OUT && c.control == Closed && c.myId != -1 && env.controlConnects
    then [SignOutRequest(c.myId)] else []
  }

  function AfterSignOut(c: Client, env: Env): State {
    if c.state == NOT_CONNECTED || c.state == SIGNING_OUT then c.state
    else if c.control != Closed then SIGNING_OUT_WAITING
    else if c.myId != -1 && !env.controlConnects then NOT_CONNECTED
    else SIGNING_OUT
  }

  lemma SignOutIs(c: Client, env: Env)
    ensures var t, out := SignOutStep(c, env), SigningOut(c, env);
      && t.calls == c.calls && t.state == AfterSignOut(c, env) && (c.state == NOT_CONNECTED ==> t == c)
      && (t.state != NOT_CONNECTED ==> t.myId == c.myId && t.peers == c.peers)
      && (t.state == NOT_CONNECTED && c.state != NOT_CONNECTED ==> t.myId == -1 && t.peers == map[])
      && t.sent == c.sent && t.ticket == c.ticket + |out| && t.name == c.name && t.retries == c.retries
      && (if out != [] then t.control == Connecting && t.staged == out[0]
          else if t.state == NOT_CONNECTED && c.state != NOT_CONNECTED then t.control == Closed
          else t.control == c.control && t.staged == c.staged)
      && t.state != CONNECTED && (c.state == CONNECTED || c.hanging == Closed ==> t.hanging == Closed)
  {
    hide SignOutRequest;
  }

  /** Signing out depends on the state, the id and the control socket. */
  lemma SameSignOut(c: Client, v: Client, env: Env)
    requires v.state == c.state && v.control == c.control && v.myId == c.myId
    ensures SigningOut(v, env) == SigningOut(c, env) && AfterSignOut(v, env) == AfterSignOut(c, env)
  {}

  // ---------------------------------------------------------------- a read of the hanging GET

  /** What the client does about the news, once the observer has been told. */
  function Answer(c: Client, news: News, env: Env): Client {
    var t := c.(calls := c.calls + Told(news));
    match news
    case Nothing => c
    case Refusal => PeerClient.Close(t)
    case Member(e) => t.(peers := if e.connected then c.peers[e.id := e.name] else c.peers - {e.id})
    case Words(_, _) => if SignsOutInAnswer(news, env) then SignOutStep(t, env) else t
  }

  lemma NotificationIs(c: Client, d: string, env: Env)
    requires Complete(d) && HeaderEnd(d) != NPOS && HeaderEnd(d) + 4 <= |d|
    ensures Notification(c, d, env) == Answer(c, NewsOf(c.myId, d), env)
  {
    hide Complete, HeaderEnd, Status, PragmaId, ParseEntry, BodyOf, SignOutStep;
  }

  /** The calls, the state and the list after the news. */
  predicate Hears(c: Client, news: News, env: Env, t: Client) {
    && t.calls == c.calls + Told(news)
    && t.state == (if news.Refusal? then NOT_CONNECTED
                   else if SignsOutInAnswer(news, env) then AfterSignOut(c, env) else c.state)
    && t.myId == (if t.state == NOT_CONNECTED then -1 else c.myId)
    && t.peers == (if t.state == NOT_CONNECTED then map[]
                   else if news.Member? then Notice(c.peers, news.entry) else c.peers)
  }

  /** The request it answers with, if it does, and what becomes of the control socket. */
  predicate Answers(c: Client, out: seq<string>, t: Client) {
    && t.sent == c.sent && t.ticket == c.ticket + |out| && t.name == c.name && t.retries == c.retries
    && (if out != [] then t.control == Connecting && t.staged == out[0]
        else if t.state == NOT_CONNECTED then t.control == Closed
        else t.control == c.control && t.staged == c.staged)
  }

  lemma AnswerIs(c: Client, news: News, env: Env)
    requires c.state == CONNECTED
    ensures var t := Answer(c, news, env);
      && Hears(c, news, env, t)
      && Answers(c, if SignsOutInAnswer(news, env) then SigningOut(c, env) else [], t)
      && (t.state == CONNECTED ==> t.hanging == c.hanging) && (t.state != CONNECTED ==> t.hanging == Closed)
  {
    hide SignOutStep, AfterSignOut, SigningOut;
    var t := c.(calls := c.calls + Told(news));
    SignOutIs(t, env);
    SameSignOut(c, t, env);
  }

  /** What one read of the hanging GET does, by the news it brings. */
  lemma HangingReadIs(c: Client, data: string, env: Env)
    requires Inv(c) && c.hanging == Open
    ensures var t, d := HangingReads(c, data, env), c.notificationData + data;
      var news := NewsOf(c.myId, d);
      && Hears(c, news, env, t)
      && Answers(c, if SignsOutInAnswer(news, env) then SigningOut(c, env) else [], t)
      && t.hanging == if t.state != CONNECTED then Closed
                      else if !ShouldClose(d) then Open
                      else if env.hangingConnects || env.hangingReconnects then Connecting else Closed
  {
    hide Complete, ShouldClose, HeaderEnd, Notification, NewsOf, Told, SignsOutInAnswer, Answer;
    hide SigningOut, AfterSignOut, Hears, Answers;
    var d := c.notificationData + data;
    CompleteHasHeaders(d);
    var t := c.(notificationData := d);
    var u := if ShouldClose(d) then HangingCloses(t, false, env) else t;
    NothingIncomplete(u, d, env);
    AnswerIs(u, NewsOf(c.myId, d), env);
    if Complete(d) { NotificationIs(u, d, env); }
    SameNews(c, u, NewsOf(c.myId, d), env, Answer(u, NewsOf(c.myId, d), env), HangingReads(c, data, env));
  }

  /** The hanging GET and its buffer make no difference. */
  lemma SameNews(c: Client, u: Client, news: News, env: Env, v: Client, t: Client)
    requires u == c.(hanging := u.hanging, notificationData := u.notificationData)
    requires t == v.(hanging := t.hanging, notificationData := t.notificationData)
    requires var out := if SignsOutInAnswer(news, env) then SigningOut(u, env) else [];
      Hears(u, news, env, v) && Answers(u, out, v)
    ensures var out := if SignsOutInAnswer(news, env) then SigningOut(c, env) else [];
      Hears(c, news, env, t) && Answers(c, out, t)
  {}

  lemma NothingIncomplete(c: Client, d: string, env: Env)
    ensures !Complete(d) ==> NewsOf(c.myId, d) == Nothing && !ShouldClose(d) && Answer(c, Nothing, env) == c
  {
    assert c.calls + [] == c.calls;
  }

  // ---------------------------------------------------------------- what the reply to a request says

  predicate SignsIn(c: Client, d: string) {
    Complete(d) && Status(d) == 200 && c.myId == -1
  }

  /** The members a sign-in reply lists, without the one it makes us. */
  function Listed(d: string): seq<Entry>
    requires HeaderEnd(d) != NPOS
  {
    if ContentLength(d) == Some(0) then [] else BodyEntries(d, HeaderEnd(d) + 4, PragmaId(d))
  }

  function Connections(entries: seq<Entry>): seq<Callback> {
    seq(|entries|, k requires 0 <= k < |entries| => PeerConnected(entries[k].id, entries[k].name))
  }

  lemma {:induction false} AnnounceIs(entries: seq<Entry>)
    ensures Announce(entries) == Connections(entries)
  {
    if entries != [] { AnnounceIs(entries[1..]); }
  }

  /** What the observer is to hear of a reply: that the socket is free, and then what the reply says. */
  function ToldOfReply(c: Client, d: string): seq<Callback> {
    if !Complete(d) then []
    else
      (if ShouldClose(d) then [MessageSent(0)] else [])
      + (if Status(d) != 200 || (c.myId != -1 && c.state == SIGNING_OUT) then [Disconnected]
         else if c.myId == -1 then Connections(Listed(d)) + [SignedIn]
         else [])
  }

  /** The request that the reply makes room for: a waiting sign-out. */
  function RepliedTo(c: Client, d: string, env: Env): seq<string> {
    if c.state == SIGNING_OUT_WAITING && c.myId != -1 && Complete(d) && Status(d) == 200 && ShouldClose(d)
       && env.controlConnects
    then [SignOutRequest(c.myId)] else []
  }

  function AfterReply(c: Client, d: string, env: Env): State {
    if !Complete(d) then c.state
    else if Status(d) != 200 || (c.state == SIGNING_OUT && c.myId != -1) then NOT_CONNECTED
    else if c.state == SIGNING_IN then CONNECTED
    else if c.state == SIGNING_OUT_WAITING && c.myId != -1 && ShouldClose(d) then
      if env.controlConnects then SIGNING_OUT else NOT_CONNECTED
    else c.state
  }

  lemma ClosesComplete(d: string)
    ensures ShouldClose(d) ==> Complete(d)
  {}

  /** The calls of a reply, and the id and list of a sign-in, once ReadIntoBuffer may have closed the socket. */
  lemma ReplyIs(c: Client, d: string, env: Env)
    requires HeaderEnd(d) != NPOS && ContentLength(d).Some? && (c.myId == -1 ==> c.peers == map[])
    ensures var t := ControlReply(c, d, env);
      && t.calls == c.calls
           + (if Status(d) != 200 || (c.myId != -1 && c.state == SIGNING_OUT) then [Disconnected]
              else if c.myId == -1 then Connections(Listed(d)) + [SignedIn]
              else [])
      && (Status(d) == 200 && c.myId == -1 ==>
            t == c.(myId := PragmaId(d), peers := Enter(map[], Listed(d)), calls := t.calls))
      && (Status(d) != 200 || (c.myId != -1 && c.state == SIGNING_OUT) ==> t == PeerClient.Close(c.(calls := t.calls)))
      && (Status(d) == 200 && c.myId != -1 && c.state != SIGNING_OUT ==>
            t == if c.state == SIGNING_OUT_WAITING then SignOutStep(c, env) else c)
  {
    hide HeaderEnd, ContentLength, Status, PragmaId, BodyEntries, Enter, Announce, SignOutStep, Connections;
    SignOutIs(c, env);
    AnnounceIs(Listed(d));
    assert c.calls + [] == c.calls;
  }

  lemma ControlReadCalls(c: Client, data: string, env: Env)
    requires Inv(c) && c.control == Open
    ensures ControlReads(c, data, env).calls == c.calls + ToldOfReply(c, c.controlData + data)
  {
    hide Complete, ShouldClose, HeaderEnd, ContentLength, Status, ControlReply, SignOutStep, PragmaId, Listed;
    hide Enter, Connections;
    var d := c.controlData + data;
    CompleteHasHeaders(d);
    var t := c.(controlData := d);
    if Complete(d) {
      var u := if ShouldClose(d) then ControlCloses(t, false, 0) else t;
      ReplyIs(u, d, env);
      SignOutIs(u, env);
      var first := if ShouldClose(d) then [MessageSent(0)] else [];
      assert u.calls == c.calls + first;
      Associates(c.calls, first, ToldOfReply(c, d)[|first|..]);
    }
  }

  lemma Associates<T>(a: seq<T>, b: seq<T>, c: seq<T>)
    ensures a + b + c == a + (b + c)
  {}

  /** What one read of the control socket does, by the reply in its buffer. */
  lemma ControlReadIs(c: Client, data: string, env: Env)
    requires Inv(c) && c.control == Open
    ensures var t, d := ControlReads(c, data, env), c.controlData + data;
      && t.state == AfterReply(c, d, env)
      && t.myId == (if t.state == NOT_CONNECTED then -1 else if SignsIn(c, d) then PragmaId(d) else c.myId)
      && t.peers == (if t.state == NOT_CONNECTED then map[]
                     else if SignsIn(c, d) then Enter(map[], Listed(d)) else c.peers)
      && t.hanging == (if t.state != CONNECTED then Closed else if c.state == CONNECTED then c.hanging
                       else if env.hangingConnects then Connecting else Closed)
      && Answers(if ShouldClose(d) then c.(control := Closed) else c, RepliedTo(c, d, env), t)
  {
    hide Complete, ShouldClose, HeaderEnd, ContentLength, Status, ControlReply, SignOutStep, PragmaId, Listed;
    hide Enter, Connections, SignOutRequest;
    var d := c.controlData + data;
    CompleteHasHeaders(d);
    ClosesComplete(d);
    var t := c.(controlData := d);
    if Complete(d) {
      var u := if ShouldClose(d) then ControlCloses(t, false, 0) else t;
      ReplyIs(u, d, env);
      SignOutIs(u, env);
    }
  }

  // ---------------------------------------------------------------- every event

  /** What the observer is told. */
  function Calls(c: Client, e: Event, env: Env): seq<Callback> {
    match e
    case Connect(server, name) =>
      if c.state == NOT_CONNECTED && server != "" && name != "" && env.controlConnects then [] else [ConnectionFailure]
    case Retry => if env.controlConnects then [] else [ConnectionFailure]
    case ControlRead(data) => ToldOfReply(c, c.controlData + data)
    case ControlClosed(refused, err) => if refused then [] else [MessageSent(err)]
    case HangingRead(_) => Told(NewsIn(c, e))
    case HangingClosed(refused) => if refused then [Disconnected] else []
    case _ => []
  }

  /** The request for which the control socket is connected. */
  function Dialled(c: Client, e: Event, env: Env): seq<string> {
    match e
    case Connect(server, name) =>
      if c.state == NOT_CONNECTED && server != "" && name != "" && env.controlConnects
      then [SignInRequest(name)] else []
    case Retry => if env.controlConnects then [SignInRequest(c.name)] else []
    case SendMessage(peer, message) =>
      if c.state == CONNECTED && c.myId != -1 && peer != -1 && env.controlConnects
      then [MessageRequest(c.myId, peer, message)] else []
    case SignOut => SigningOut(c, env)
    case ControlRead(data) => RepliedTo(c, c.controlData + data, env)
    case HangingRead(_) => if SignsOutInAnswer(NewsIn(c, e), env) then SigningOut(c, env) else []
    case _ => []
  }

  function NextState(c: Client, e: Event, env: Env): State {
    match e
    case Connect(server, name) =>
      if c.state == NOT_CONNECTED && server != "" && name != "" && env.controlConnects then SIGNING_IN else c.state
    case Retry => if env.controlConnects then SIGNING_IN else NOT_CONNECTED
    case SendMessage(peer, _) =>
      if c.state == CONNECTED && peer != -1 && !env.controlConnects then NOT_CONNECTED else c.state
    case SignOut => AfterSignOut(c, env)
    case ControlRead(data) => AfterReply(c, c.controlData + data, env)
    case HangingRead(_) =>
      var news := NewsIn(c, e);
      if news.Refusal? then NOT_CONNECTED
      else if SignsOutInAnswer(news, env) then AfterSignOut(c, env) else c.state
    case HangingClosed(refused) => if refused then NOT_CONNECTED else c.state
    case _ => c.state
  }

  /** Every event makes exactly these calls, in this order. */
  lemma CallsOfEvent(c: Client, e: Event, env: Env)
    requires Inv(c) && Enabled(c, e)
    ensures Step(c, e, env).calls == c.calls + Calls(c, e, env)
  {
    hide ControlReads, HangingReads, SignOutStep, SignInRequest, MessageRequest, SignOutRequest;
    hide Listed, Enter, PragmaId, Complete, ShouldClose, Status, NewsOf, Told;
    assert c.calls + [] == c.calls;
    match e
    case ControlRead(data) => ControlReadCalls(c, data, env);
    case HangingRead(data) => HangingReadIs(c, data, env);
    case SignOut => SignOutIs(c, env);
    case _ =>
  }

  /** The state diagram, with the id: it comes with the reply to a sign-in and goes with the connection. */
  lemma StateOfEvent(c: Client, e: Event, env: Env)
    requires Inv(c) && Enabled(c, e)
    ensures var t := Step(c, e, env);
      && t.state == NextState(c, e, env)
      && t.myId == (if t.state == NOT_CONNECTED then -1
                    else if e.ControlRead? && SignsIn(c, c.controlData + e.data) then PragmaId(c.controlData + e.data)
                    else c.myId)
  {
    hide ControlReads, HangingReads, SignOutStep, SignInRequest, MessageRequest, SignOutRequest;
    hide Listed, Enter, PragmaId, Complete, ShouldClose, Status, NewsOf, Told;
    match e
    case ControlRead(data) => ControlReadIs(c, data, env);
    case HangingRead(data) => HangingReadIs(c, data, env);
    case SignOut => SignOutIs(c, env);
    case _ =>
  }

  /** The control socket is connected for exactly these requests, each under a number of its own. */
  lemma RequestOfEvent(c: Client, e: Event, env: Env)
    requires Inv(c) && Enabled(c, e)
    ensures var t, out := Step(c, e, env), Dialled(c, e, env);
      && |out| <= 1 && t.ticket == c.ticket + |out|
      && (e.ControlConnected? ==> out == [] && t.control == Open && t.staged == "")
      && (out != [] ==> t.control == Connecting && t.staged == out[0])
      && (out == [] && t.control == Connecting ==> c.control == Connecting && t.staged == c.staged)
      && t.sent == if e.ControlConnected? then c.sent + [Request(c.ticket, c.staged)] else c.sent
  {
    hide ControlReads, HangingReads, SignOutStep, SignInRequest, MessageRequest, SignOutRequest;
    hide Listed, Enter, PragmaId, Complete, ShouldClose, Status, NewsOf, Told;
    match e
    case ControlRead(data) => ControlReadIs(c, data, env);
    case HangingRead(data) => HangingReadIs(c, data, env);
    case SignOut => SignOutIs(c, env);
    case _ =>
  }

  /** The peer list comes with the reply to a sign-in, changes by notices, and goes with the connection. */
  function NextPeers(c: Client, e: Event, env: Env): Peers {
    if NextState(c, e, env) == NOT_CONNECTED then map[]
    else if e.ControlRead? && SignsIn(c, c.controlData + e.data) then Enter(map[], Listed(c.controlData + e.data))
    else if !NewsIn(c, e).Member? then c.peers
    else
      var notice := NewsIn(c, e).entry;
      if notice.connected then c.peers[notice.id := notice.name] else c.peers - {notice.id}
  }

  function NextHanging(c: Client, e: Event, env: Env): Socket {
    if NextState(c, e, env) != CONNECTED then Closed
    else
      match e
      case HangingConnected => Open
      case HangingClosed(_) => if env.hangingConnects then Connecting else Closed
      case HangingRead(data) =>
        if !ShouldClose(c.notificationData + data) then Open
        else if env.hangingConnects || env.hangingReconnects then Connecting else Closed
      case ControlRead(_) =>
        if c.state == CONNECTED then c.hanging else if env.hangingConnects then Connecting else Closed
      case _ => c.hanging
  }

  function NextControl(c: Client, e: Event, env: Env): Socket {
    if Dialled(c, e, env) != [] then Connecting
    else if NextState(c, e, env) == NOT_CONNECTED then Closed
    else
      match e
      case ControlConnected => Open
      case ControlClosed(_, _) => Closed
      case ControlRead(data) => if ShouldClose(c.controlData + data) then Closed else Open
      case _ => c.control
  }

  /** Both sockets, the list, the name and the reconnect timers after every event. */
  lemma SocketsOfEvent(c: Client, e: Event, env: Env)
    requires Inv(c) && Enabled(c, e)
    ensures var t := Step(c, e, env);
      && t.hanging == NextHanging(c, e, env) && t.control == NextControl(c, e, env)
      && t.peers == NextPeers(c, e, env)
      && t.name == (if e.Connect? && c.state == NOT_CONNECTED && e.server != "" && e.name != "" then e.name else c.name)
      && t.retries == (if e.ControlClosed? && e.refused then c.retries + 1
                       else if e.Retry? then c.retries - 1 else c.retries)
  {
    hide ControlReads, HangingReads, SignOutStep, SignInRequest, MessageRequest, SignOutRequest;
    hide Listed, Enter, PragmaId, Complete, ShouldClose, Status, NewsOf, Told;
    match e
    case ControlRead(data) => ControlReadIs(c, data, env);
    case HangingRead(data) => HangingReadIs(c, data, env);
    case SignOut => SignOutIs(c, env);
    case _ =>
  }
}
