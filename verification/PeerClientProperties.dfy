/**
  What runs of the signalling client achieve: sign-out makes progress and ends quietly, the peer list
  mirrors the server's membership, and how replies are cut into packets does not matter.
 */
module PeerClientProperties {
  import opened Text
  import opened HttpFraming
  import opened PeerEntries
  import opened PeerClient

  // ---------------------------------------------------------------- sign-out

  function Rank(s: State): nat {
    match s
    case NOT_CONNECTED => 0
    case SIGNING_OUT => 1
    case SIGNING_OUT_WAITING => 2
    case _ => 3
  }

  function Disconnects(calls: seq<Callback>): nat {
    if calls == [] then 0
    else Disconnects(calls[..|calls| - 1]) + if calls[|calls| - 1] == Disconnected then 1 else 0
  }

  lemma DisconnectsPush(calls: seq<Callback>, call: Callback)
    ensures Disconnects(calls + [call]) == Disconnects(calls) + if call == Disconnected then 1 else 0
  {
    assert (calls + [call])[..|calls|] == calls;
  }

  predicate AboutPeers(call: Callback) {
    call.PeerConnected? || call.PeerDisconnected? || call.MessageFromPeer?
  }

  /** A client that is signing out, or is done. */
  predicate Leaving(c: Client) {
    && Inv(c) && c.hanging == Closed
    && (c.state == SIGNING_OUT_WAITING || c.state == SIGNING_OUT || c.state == NOT_CONNECTED)
    && (c.state != NOT_CONNECTED ==> c.myId != -1)
  }

  /** Not a new sign-in. */
  predicate Winding(i: Input) {
    !i.event.Connect? && !i.event.Retry?
  }

  /** The step connects the control socket to deliver the sign-out request. */
  predicate Dials(c: Client, e: Event) {
    match e
    case SignOut =>
      c.state != NOT_CONNECTED && c.state != SIGNING_OUT && c.control == Closed && c.myId != -1
    case ControlRead(data) =>
      var d := c.controlData + data;
      c.state == SIGNING_OUT_WAITING && c.myId != -1 && Complete(d) && Status(d) == 200 && ShouldClose(d)
    case _ => false
  }

  predicate DialFailed(c: Client, i: Input) {
    Dials(c, i.event) && !i.env.controlConnects
  }

  /** Somewhere in the run the connect for the sign-out request fails. */
  predicate DialFails(c: Client, run: seq<Input>)
    requires CanRun(c, run)
    decreases |run|
  {
    run != [] && (DialFailed(c, run[0]) || DialFails(Step(c, run[0].event, run[0].env), run[1..]))
  }

  /**
    t follows c with no call about peers, the state only moving towards NOT_CONNECTED, and with the
    disconnection announced exactly if it was not a failed connect that caused it.
   */
  predicate Quietly(c: Client, t: Client, failed: bool) {
    && |c.calls| <= |t.calls| && t.calls[..|c.calls|] == c.calls
    && (forall k :: |c.calls| <= k < |t.calls| ==> !AboutPeers(t.calls[k]))
    && Rank(t.state) <= Rank(c.state)
    && (failed ==> c.state != NOT_CONNECTED && t.state == NOT_CONNECTED)
    && Disconnects(t.calls) == Disconnects(c.calls)
         + (if c.state != NOT_CONNECTED && t.state == NOT_CONNECTED && !failed then 1 else 0)
  }

  lemma LeavingStep(c: Client, e: Event, env: Env)
    requires Leaving(c) && Enabled(c, e) && ServerAssignsId(c, e) && Winding(Input(e, env))
    ensures Leaving(Step(c, e, env)) && Quietly(c, Step(c, e, env), DialFailed(c, Input(e, env)))
  {
    StepKeeps(c, e, env);
    match e
    case ControlRead(data) => LeavingRead(c, data, env);
    case ControlClosed(_, err) =>
      hide Inv;
      DisconnectsPush(c.calls, MessageSent(err));
    case _ => hide ControlReads, HangingReads, HangingCloses, ServerAssignsId, SignOutRequest;
  }

  lemma LeavingReply(c: Client, d: string, env: Env)
    requires HeaderEnd(d) != NPOS && ContentLength(d).Some?
    requires Leaving(c) && c.state != NOT_CONNECTED
    ensures var u := ControlReply(c, d, env);
      Leaving(u) && Quietly(c, u, Status(d) == 200 && c.state == SIGNING_OUT_WAITING && c.control == Closed
                                  && !env.controlConnects)
  {
    DisconnectsPush(c.calls, Disconnected);
    hide HeaderEnd, ContentLength, Status, PragmaId, SignInReply, SignOutRequest, Disconnects;
  }

  lemma QuietlyThrough(a: Client, b: Client, c: Client, f: bool, g: bool)
    requires Quietly(a, b, f) && Quietly(b, c, g)
    ensures Quietly(a, c, f || g)
  {
    hide Disconnects, AboutPeers;
    assert c.calls[..|a.calls|] == c.calls[..|b.calls|][..|a.calls|];
    assert forall k :: |a.calls| <= k < |b.calls| ==> c.calls[k] == c.calls[..|b.calls|][k];
  }

  lemma LeavingRead(c: Client, data: string, env: Env)
    requires Leaving(c) && c.control == Open
    ensures Leaving(ControlReads(c, data, env))
    ensures Quietly(c, ControlReads(c, data, env), DialFailed(c, Input(ControlRead(data), env)))
  {
    hide Complete, ShouldClose, HeaderEnd, ContentLength, Status, ControlReply, Disconnects, AboutPeers;
    var d := c.controlData + data;
    CompleteHasHeaders(d);
    if Complete(d) {
      var t := c.(controlData := d);
      var u := if ShouldClose(d) then ControlCloses(t, false, 0) else t;
      ClosesQuietly(t, u);
      LeavingReply(u, d, env);
      var v := ControlReply(u, d, env);
      QuietlyThrough(t, u, v, false, DialFailed(c, Input(ControlRead(data), env)));
    }
  }

  lemma ClosesQuietly(t: Client, u: Client)
    requires Leaving(t) && t.control == Open && (u == t || u == ControlCloses(t, false, 0))
    ensures Leaving(u) && Quietly(t, u, false)
  {
    DisconnectsPush(t.calls, MessageSent(0));
    hide Disconnects;
  }

  lemma {:induction false} LeavingRun(c: Client, run: seq<Input>)
    requires Leaving(c) && CanRun(c, run) && forall i | i in run :: Winding(i)
    ensures Leaving(Run(c, run)) && Quietly(c, Run(c, run), DialFails(c, run))
    decreases |run|
  {
    hide Leaving, Winding, DialFailed;
    if run != [] {
      var e, env := run[0].event, run[0].env;
      assert run[0] == Input(e, env) && run[0] in run;
      LeavingStep(c, e, env);
      forall i | i in run[1..] ensures Winding(i) { assert i in run; }
      LeavingRun(Step(c, e, env), run[1..]);
      QuietlyThrough(c, Step(c, e, env), Run(c, run), DialFailed(c, run[0]), DialFails(Step(c, e, env), run[1..]));
    }
  }

  lemma SignOutStarts(c: Client, env: Env)
    requires Inv(c) && c.state == CONNECTED
    ensures Leaving(SignOutStep(c, env)) && Quietly(c, SignOutStep(c, env), DialFailed(c, Input(SignOut, env)))
  {
    SignOutKeeps(c, env);
    hide SignOutRequest;
  }

  /**
    From SignOut on a connected client until the next sign-in, whatever the server and the sockets do:
    no observer call about a peer is made, the state only moves towards NOT_CONNECTED, and OnDisconnected
    is called once if the client gets there - unless it got there by failing to connect for the sign-out
    request, and then not at all.
   */
  lemma SignOutIsQuiet(c: Client, run: seq<Input>)
    requires Inv(c) && c.state == CONNECTED
    requires CanRun(c, run) && run != [] && run[0].event.SignOut? && forall i | i in run :: Winding(i)
    ensures var t := Run(c, run);
      && c.calls <= t.calls
      && (forall k :: |c.calls| <= k < |t.calls| ==> !AboutPeers(t.calls[k]))
      && Rank(t.state) <= Rank(SIGNING_OUT_WAITING)
      && (DialFails(c, run) ==> t.state == NOT_CONNECTED)
      && Disconnects(t.calls) == Disconnects(c.calls)
           + (if t.state == NOT_CONNECTED && !DialFails(c, run) then 1 else 0)
  {
    hide Winding, DialFailed, Disconnects, AboutPeers, Inv;
    var s := SignOutStep(c, run[0].env);
    assert run[0] == Input(SignOut, run[0].env);
    SignOutStarts(c, run[0].env);
    forall i | i in run[1..] ensures Winding(i) { assert i in run; }
    LeavingRun(s, run[1..]);
    QuietlyThrough(c, s, Run(c, run), DialFailed(c, run[0]), DialFails(s, run[1..]));
  }

  /**
    Each complete successful reply to the control socket moves a sign-out one state on, but a waiting
    sign-out only moves if the client already had its id and the reply closes the connection: in every
    other case it stays in SIGNING_OUT_WAITING. In particular a SignOut that overtakes the sign-in
    reply is lost, and the check at line 333 fails exactly then.
   */
  lemma SignOutProgress(c: Client, data: string, env: Env)
    requires Inv(c) && c.control == Open
    requires Complete(c.controlData + data) && Status(c.controlData + data) == 200
    requires c.state == SIGNING_OUT_WAITING || c.state == SIGNING_OUT
    ensures var t := ControlReads(c, data, env);
      && (c.state == SIGNING_OUT ==> t.state == NOT_CONNECTED && t.calls[|t.calls| - 1] == Disconnected)
      && (c.state == SIGNING_OUT_WAITING ==>
            t.state == if c.myId == -1 || !ShouldClose(c.controlData + data) then SIGNING_OUT_WAITING
                       else if env.controlConnects then SIGNING_OUT
                       else NOT_CONNECTED)
  {
    hide Complete, ShouldClose, HeaderEnd, ContentLength, Status, PragmaId, BodyEntries, Enter, Announce;
    hide SignOutRequest;
    CompleteHasHeaders(c.controlData + data);
  }

  /** Signing out, with both sockets closed and no reconnect timer running. */
  predicate Stuck(c: Client) {
    c.state == SIGNING_OUT && c.control == Closed && c.hanging == Closed && c.retries == 0
  }

  /** A sign-out is stuck for ever: no event, not even a new Connect, leads out of it. */
  lemma {:induction false} StuckForEver(c: Client, run: seq<Input>)
    requires Stuck(c) && CanRun(c, run)
    ensures Stuck(Run(c, run))
    decreases |run|
  {
    hide ServerAssignsId, SignInRequest, SignOutRequest, MessageRequest;
    if run != [] { StuckForEver(Step(c, run[0].event, run[0].env), run[1..]); }
  }

  /** A sign-out in progress gets stuck in a step exactly if its connection ends, not refused, before the reply. */
  lemma GetsStuckIff(c: Client, e: Event, env: Env)
    requires Inv(c) && Enabled(c, e) && c.state == SIGNING_OUT && c.control != Closed && c.retries == 0
    ensures Stuck(Step(c, e, env)) <==> e.ControlClosed? && !e.refused
  {
    match e
    case ControlRead(data) => SignOutReply(c, data, env);
    case _ => hide ControlReads, HangingReads, SignInRequest, SignOutRequest, MessageRequest, ServerAssignsId;
  }

  lemma SignOutReply(c: Client, data: string, env: Env)
    requires c.control == Open && c.state == SIGNING_OUT && c.myId != -1
    ensures !Stuck(ControlReads(c, data, env))
  {
    hide Complete, ShouldClose, HeaderEnd, ContentLength, Status, PragmaId;
    CompleteHasHeaders(c.controlData + data);
  }

  /** SignOut can overtake the sign-in reply, and then the reply finds the state the check at line 333 excludes. */
  lemma SignOutOvertakesSignIn(server: string, name: string, env: Env)
    requires server != "" && name != "" && env.controlConnects
    ensures var run := [Input(Connect(server, name), env), Input(ControlConnected, env), Input(SignOut, env)];
      && CanRun(INIT, run)
      && var c := Run(INIT, run); c.state == SIGNING_OUT_WAITING && c.myId == -1 && c.control == Open
  {
    hide SignInRequest, SignOutRequest, ControlReads, HangingReads;
    var c1 := Step(INIT, Connect(server, name), env);
    var c2 := Step(c1, ControlConnected, env);
    var c3 := Step(c2, SignOut, env);
    assert CanRun(c3, []) && Run(c3, []) == c3;
    var run := [Input(Connect(server, name), env), Input(ControlConnected, env), Input(SignOut, env)];
    assert run[1..][1..] == [run[2]] && run[1..][1..][1..] == [];
    assert CanRun(c2, run[1..][1..]) && Run(c2, run[1..][1..]) == c3;
    assert CanRun(c1, run[1..]) && Run(c1, run[1..]) == c3;
  }

  /** A sign-out waits for a reply that it does not expect: the one that will bring our id. */
  predicate Overtaken(c: Client) {
    c.state == SIGNING_OUT_WAITING && c.myId == -1
  }

  /**
    The check at line 333 holds for the first reply exactly if no sign-out has overtaken it, and the only
    way to get there is SignOut while signing in with the control socket in use.
   */
  lemma FirstReplyCheckIff(c: Client, e: Event, env: Env)
    requires Inv(c) && Enabled(c, e) && ServerAssignsId(c, e)
    ensures e.ControlRead? && c.myId == -1 ==> (c.state == SIGNING_IN <==> !Overtaken(c))
    ensures !Overtaken(c) ==>
      (Overtaken(Step(c, e, env)) <==> e.SignOut? && c.state == SIGNING_IN && c.control != Closed && c.myId == -1)
  {
    match e
    case ControlRead(data) => if !Overtaken(c) { ReplyDoesNotOvertake(c, data, env); }
    case HangingRead(data) => NoticeDoesNotOvertake(c, data, env);
    case _ => hide ControlReads, HangingReads, SignInRequest, SignOutRequest, MessageRequest, ServerAssignsId;
  }

  lemma NoticeDoesNotOvertake(c: Client, data: string, env: Env)
    requires c.state == CONNECTED && c.myId != -1
    ensures !Overtaken(HangingReads(c, data, env))
  {
    hide Complete, ShouldClose, HeaderEnd, Status, PragmaId, ParseEntry, BodyOf, SignOutRequest;
  }

  lemma ReplyDoesNotOvertake(c: Client, data: string, env: Env)
    requires Inv(c) && c.control == Open && !Overtaken(c)
    ensures !Overtaken(ControlReads(c, data, env))
  {
    hide Complete, ShouldClose, HeaderEnd, ContentLength, Status;
    hide PragmaId, BodyEntries, Enter, Announce, SignOutRequest;
    CompleteHasHeaders(c.controlData + data);
  }

  /** Signing in ends connected; the invariant then holds exactly if the reply assigned an id. */
  lemma SignInNeedsAnId(c: Client, data: string, env: Env)
    requires Inv(c) && c.control == Open && c.state == SIGNING_IN && c.myId == -1
    requires Complete(c.controlData + data) && Status(c.controlData + data) == 200
    ensures var t := ControlReads(c, data, env);
      t.state == CONNECTED && (Inv(t) <==> PragmaId(c.controlData + data) != -1)
  {
    hide Complete, ShouldClose, HeaderEnd, ContentLength, Status;
    hide PragmaId, BodyEntries, Enter, Announce, SignOutRequest;
    CompleteHasHeaders(c.controlData + data);
  }

  // ---------------------------------------------------------------- the peer list

  /** The membership change a whole notification brings, if it brings one. */
  function NoticeOf(myId: int, d: string): seq<Entry> {
    if Complete(d) && HeaderEnd(d) != NPOS && HeaderEnd(d) + 4 <= |d| && Status(d) == 200 && PragmaId(d) == myId then
      match ParseEntry(BodyOf(d))
      case None => []
      case Some(entry) => [entry]
    else []
  }

  function NoticeIn(c: Client, e: Event): seq<Entry> {
    if e.HangingRead? then NoticeOf(c.myId, c.notificationData + e.data) else []
  }

  predicate StaysConnected(c: Client, run: seq<Input>)
    decreases |run|
  {
    && c.state == CONNECTED
    && (run == [] ||
        (Enabled(c, run[0].event) && ServerAssignsId(c, run[0].event) &&
         StaysConnected(Step(c, run[0].event, run[0].env), run[1..])))
  }

  function NoticesIn(c: Client, run: seq<Input>): seq<Entry>
    requires StaysConnected(c, run)
    decreases |run|
  {
    if run == [] then []
    else NoticeIn(c, run[0].event) + NoticesIn(Step(c, run[0].event, run[0].env), run[1..])
  }

  lemma NoticesOne(peers: Peers, e: Entry)
    ensures Notices(peers, [e]) == Notice(peers, e) && Notices(peers, []) == peers
  {}

  lemma NotificationPeers(c: Client, d: string, env: Env)
    requires Complete(d) && HeaderEnd(d) != NPOS && HeaderEnd(d) + 4 <= |d|
    requires Notification(c, d, env).state == CONNECTED
    ensures Notification(c, d, env).peers == Notices(c.peers, NoticeOf(c.myId, d))
    ensures Notification(c, d, env).myId == c.myId
  {
    hide Complete, HeaderEnd, Status, PragmaId, ParseEntry, BodyOf, SignOutRequest, Notices, Notice;
    if Status(d) == 200 && c.myId == PragmaId(d) && ParseEntry(BodyOf(d)).Some? {
      NoticesOne(c.peers, ParseEntry(BodyOf(d)).value);
    } else {
      NoticesOne(c.peers, Entry("", 0, false));
    }
  }

  lemma HangingReadPeers(c: Client, data: string, env: Env)
    requires c.state == CONNECTED && HangingReads(c, data, env).state == CONNECTED
    ensures HangingReads(c, data, env).peers == Notices(c.peers, NoticeIn(c, HangingRead(data)))
    ensures HangingReads(c, data, env).myId == c.myId
  {
    hide Complete, ShouldClose, HeaderEnd, Notification, Notices;
    var d := c.notificationData + data;
    CompleteHasHeaders(d);
    NoticesOne(c.peers, Entry("", 0, false));
    if Complete(d) {
      var t := c.(notificationData := d);
      NotificationPeers(if ShouldClose(d) then HangingCloses(t, false, env) else t, d, env);
    }
  }

  lemma ControlReadPeers(c: Client, data: string, env: Env)
    requires Inv(c) && c.state == CONNECTED && c.control == Open && ControlReads(c, data, env).state == CONNECTED
    ensures ControlReads(c, data, env).peers == c.peers && ControlReads(c, data, env).myId == c.myId
  {
    hide Complete, ShouldClose, HeaderEnd, ContentLength, Status, PragmaId, SignInReply, SignOutRequest;
    CompleteHasHeaders(c.controlData + data);
  }

  lemma StepPeers(c: Client, e: Event, env: Env)
    requires Inv(c) && c.state == CONNECTED && Enabled(c, e) && Step(c, e, env).state == CONNECTED
    ensures Step(c, e, env).peers == Notices(c.peers, NoticeIn(c, e)) && Step(c, e, env).myId == c.myId
  {
    match e
    case HangingRead(data) => HangingReadPeers(c, data, env);
    case ControlRead(data) => ControlReadPeers(c, data, env);
    case _ => hide ControlReads, HangingReads, MessageRequest, SignInRequest, SignOutRequest;
  }

  lemma {:induction false} NoticesConcat(peers: Peers, a: seq<Entry>, b: seq<Entry>)
    ensures Notices(peers, a + b) == Notices(Notices(peers, a), b)
    decreases |a|
  {
    if a == [] {
      assert a + b == b;
    } else {
      assert (a + b)[1..] == a[1..] + b;
      NoticesConcat(Notice(peers, a[0]), a[1..], b);
    }
  }

  /** While the client stays connected, its list changes by the notifications it receives and nothing else. */
  lemma {:induction false} RunPeers(c: Client, run: seq<Input>)
    requires Inv(c) && StaysConnected(c, run)
    ensures CanRun(c, run) && Run(c, run).myId == c.myId
    ensures Run(c, run).peers == Notices(c.peers, NoticesIn(c, run))
    decreases |run|
  {
    if run != [] {
      var e, env := run[0].event, run[0].env;
      StepKeeps(c, e, env);
      StepPeers(c, e, env);
      RunPeers(Step(c, e, env), run[1..]);
      NoticesConcat(c.peers, NoticeIn(c, e), NoticesIn(Step(c, e, env), run[1..]));
    }
  }

  /**
    A client whose list is the server's membership without itself keeps it so: after any run in which
    it stays connected, with any traffic on either socket, its list is the server's membership after
    the notified joins and departures, again without itself.
   */
  lemma PeersMirrorServer(c: Client, run: seq<Input>, server: Peers)
    requires Inv(c) && StaysConnected(c, run) && c.peers == server - {c.myId}
    requires forall e | e in NoticesIn(c, run) :: e.id != c.myId
    ensures CanRun(c, run)
    ensures Run(c, run).peers == Notices(server, NoticesIn(c, run)) - {c.myId}
  {
    RunPeers(c, run);
    NoticesMirror(server, NoticesIn(c, run), c.myId);
  }

  /** The notification the server prints for an entry is received as that entry. */
  lemma PrintedNotice(c: Client, data: string, e: Entry, tail: string)
    requires WellNamed(e) && (tail != [] ==> !IsDigit(tail[0]))
    requires var d := c.notificationData + data;
      && Complete(d) && HeaderEnd(d) != NPOS && HeaderEnd(d) + 4 <= |d|
      && Status(d) == 200 && PragmaId(d) == c.myId && BodyOf(d) == Print(e) + tail
    ensures NoticeIn(c, HangingRead(data)) == [e]
  {
    ParseEntryOfPrint(e, tail);
  }

  /** The sign-in reply leaves the client with the listed members, last name wins, without itself. */
  lemma SignInMirrorsServer(c: Client, d: string, members: seq<Entry>)
    requires c.peers == map[] && HeaderEnd(d) != NPOS && HeaderEnd(d) + 4 <= |d|
    requires ContentLength(d).Some? && (ContentLength(d).value == 0 ==> members == [])
    requires (forall e | e in members :: WellNamed(e)) && BodyOf(d) == Body(members)
    ensures var t := SignInReply(c, d);
      && t.peers == Enter(map[], members) - {t.myId}
      && t.calls == c.calls + Announce(Others(members, t.myId)) + [SignedIn]
  {
    hide Find, ContentLength, PragmaId, Body, Announce, WellNamed;
    var head := d[..HeaderEnd(d) + 4];
    assert d == head + Body(members);
    SignInBodyParses(head, members, PragmaId(d));
    EnterOthers(map[], members, PragmaId(d));
    var nobody: Peers := map[];
    assert nobody - {PragmaId(d)} == nobody;
  }

  /** The client that has received the whole reply `d` to its sign-in. */
  lemma SignInRead(c: Client, data: string, env: Env, members: seq<Entry>)
    requires Inv(c) && c.control == Open && c.state == SIGNING_IN && c.myId == -1
    requires var d := c.controlData + data;
      && Complete(d) && Status(d) == 200 && PragmaId(d) != -1 && HeaderEnd(d) != NPOS && HeaderEnd(d) + 4 <= |d|
      && (ContentLength(d) == Some(0) ==> members == [])
      && (forall e | e in members :: WellNamed(e)) && BodyOf(d) == Body(members)
    ensures var t := ControlReads(c, data, env);
      && t.state == CONNECTED && t.myId == PragmaId(c.controlData + data)
      && t.peers == Enter(map[], members) - {t.myId}
  {
    hide Complete, ShouldClose, HeaderEnd, ContentLength, Status, PragmaId, SignInReply, BodyOf, Body, WellNamed, Enter;
    var d := c.controlData + data;
    CompleteHasHeaders(d);
    var t := c.(controlData := d);
    var u := if ShouldClose(d) then ControlCloses(t, false, 0) else t;
    SignInMirrorsServer(u, d, members);
    SignInFields(u, d);
  }

  lemma SignInFields(c: Client, d: string)
    requires HeaderEnd(d) != NPOS && ContentLength(d).Some?
    ensures var t := SignInReply(c, d); t.myId == PragmaId(d) && t.state == c.state
  {}

  /**
    From the start of the client to any point of a connection: after any run that leads to the sign-in
    reply, a reply that lists `members`, and any further run in which the client stays connected, its
    peer list is the listed membership after the notified joins and departures, without itself.
   */
  lemma PeersMirrorServerFromStart(run: seq<Input>, data: string, env: Env, members: seq<Entry>, later: seq<Input>)
    requires CanRun(INIT, run)
    requires var c := Run(INIT, run); var d := c.controlData + data;
      && c.control == Open && c.state == SIGNING_IN && c.myId == -1
      && Complete(d) && Status(d) == 200 && PragmaId(d) != -1 && HeaderEnd(d) != NPOS && HeaderEnd(d) + 4 <= |d|
      && (ContentLength(d) == Some(0) ==> members == [])
      && (forall e | e in members :: WellNamed(e)) && BodyOf(d) == Body(members)
    requires var s := ControlReads(Run(INIT, run), data, env);
      StaysConnected(s, later) && forall e | e in NoticesIn(s, later) :: e.id != s.myId
    ensures var s := ControlReads(Run(INIT, run), data, env);
      && CanRun(s, later)
      && Run(s, later).peers == Notices(Enter(map[], members), NoticesIn(s, later)) - {s.myId}
  {
    hide Complete, Status, PragmaId, HeaderEnd, ContentLength, BodyOf, Body, WellNamed, Enter, Notices, NoticesIn;
    hide ControlReads, StaysConnected;
    assert Inv(INIT);
    hide Inv;
    RunKeeps(INIT, run);
    var c := Run(INIT, run);
    SignInRead(c, data, env, members);
    ControlReadKeeps(c, data, env);
    PeersMirrorServer(ControlReads(c, data, env), later, Enter(map[], members));
  }

  // ---------------------------------------------------------------- replies as the server prints them

  /** "HTTP/1.0 200 OK": the number behind the first space. */
  lemma StatusOfPrint(response: string, sp: nat, n: int)
    requires sp < |response| && response[sp] == ' ' && ' ' !in response[..sp]
    requires MatchesAt(response, Decimal(n), sp + 1)
    requires var e := sp + 1 + |Decimal(n)|; e < |response| ==> !IsDigit(response[e])
    ensures Status(response) == n
  {
    hide Decimal, Atoi, Find;
    assert response[0..sp] == response[..sp];
    FindChar(response, ' ', 0, sp);
    NumberAt(response, sp + 1, n);
  }

  /** Every 32-bit id survives the detour through size_t; -1 included, which is why it means "no id". */
  lemma PragmaOfPrint(response: string, f: nat, id: int)
    requires HeaderEnd(response) != NPOS && HeaderAt(response, HeaderEnd(response), PRAGMA, f, Decimal(id))
    requires var e := f + |PRAGMA| + |Decimal(id)|; e < |response| ==> !IsDigit(response[e])
    requires -0x8000_0000 <= id < 0x8000_0000
    ensures PragmaId(response) == id
  {
    HeaderSizeOfPrint(response, HeaderEnd(response), PRAGMA, f, id);
    IntThroughSize(id);
  }

  /** Without a space there is no status, and without the header no id. */
  lemma NothingPrinted(response: string)
    ensures ' ' !in response ==> Status(response) == -1
    ensures var eoh := HeaderEnd(response);
      eoh != NPOS && (forall j: nat :: j < eoh ==> !MatchesAt(response, PRAGMA, j)) ==> PragmaId(response) == -1
  {
    hide Atoi, Find;
    if Find(response, " ", 0) != NPOS { assert response[Find(response, " ", 0)] == ' '; }
    var eoh := HeaderEnd(response);
    if eoh != NPOS && forall j: nat :: j < eoh ==> !MatchesAt(response, PRAGMA, j) {
      HeaderMissing(response, eoh, PRAGMA);
    }
  }

  lemma IntThroughSize(id: int)
    requires -0x8000_0000 <= id < 0x8000_0000
    ensures ToInt(id % SIZE_MODULUS) == id
  {
    if id < 0 { assert id % SIZE_MODULUS == id + SIZE_MODULUS; } else { assert id % SIZE_MODULUS == id; }
  }

  // ---------------------------------------------------------------- packets

  /** The reads that deliver a response in pieces. */
  function ReadAll(c: Client, pieces: seq<string>, env: Env): Client {
    if pieces == [] then c else HangingReads(ReadAll(c, pieces[..|pieces| - 1], env), pieces[|pieces| - 1], env)
  }

  function ReadAllControl(c: Client, pieces: seq<string>, env: Env): Client {
    if pieces == [] then c else ControlReads(ReadAllControl(c, pieces[..|pieces| - 1], env), pieces[|pieces| - 1], env)
  }

  lemma {:induction false} PartialReads(c: Client, pieces: seq<string>, k: nat, env: Env)
    requires (forall p | p in pieces :: p != []) && Framable(Concat(pieces)) && k < |pieces|
    ensures c.hanging == Open && c.notificationData == "" ==>
      ReadAll(c, pieces[..k], env) == c.(notificationData := Concat(pieces[..k]))
    ensures c.controlData == "" ==>
      ReadAllControl(c, pieces[..k], env) == c.(controlData := Concat(pieces[..k]))
  {
    hide Complete, ShouldClose, Framable, Notification, ControlReply;
    if k > 0 {
      PartialReads(c, pieces, k - 1, env);
      assert pieces[..k][..k - 1] == pieces[..k - 1];
      FramingIsChunkIndependent(pieces);
      assert !Complete(Concat(pieces[..k]));
    }
  }

  /** A response to either socket has the same effect in one packet or cut into any number of pieces. */
  lemma PacketsDoNotMatter(c: Client, pieces: seq<string>, env: Env)
    requires (forall p | p in pieces :: p != []) && Framable(Concat(pieces)) && pieces != []
    ensures c.hanging == Open && c.notificationData == "" ==>
      ReadAll(c, pieces, env) == HangingReads(c, Concat(pieces), env)
    ensures c.controlData == "" ==>
      ReadAllControl(c, pieces, env) == ControlReads(c, Concat(pieces), env)
  {
    hide Complete, ShouldClose, Framable, Notification, ControlReply;
    var n := |pieces| - 1;
    PartialReads(c, pieces, n, env);
    assert "" + Concat(pieces) == Concat(pieces);
    assert c.(notificationData := Concat(pieces[..n])).(notificationData := Concat(pieces))
      == c.(notificationData := Concat(pieces));
  }
}
