/**
  Concrete runs of the conductor from its start, for the conditions in `ConductorRuns` and
  `ConductorMail`: a message that sleeps, one that reaches the wrong peer and one that reaches nobody, a
  hang-up that finds the control socket in use, and a close that ends the wrong call.
 */
module ConductorScenarios {
  import opened HttpFraming
  import opened PeerClient
  import opened PeerReplies
  import opened PeerScenarios
  import opened Conductor
  import opened ConductorProperties
  import opened ConductorRuns
  import opened ConductorMail

  const CH := Choice(Env(true, true, true, false), Unparsable, true, true)

  /** The same, but the control socket fails to connect. */
  const FAILING := CH.(env := CH.env.(controlConnects := false))

  lemma {:induction false} PlaySnoc(s: System, run: seq<Turn>, a: Action, ch: Choice)
    requires CanPlay(s, run) && CanAct(Play(s, run), a)
    ensures CanPlay(s, run + [Turn(a, ch)])
    ensures Play(s, run + [Turn(a, ch)]) == Act(Play(s, run), a, ch)
    decreases |run|
  {
    hide Act, CanAct;
    var longer := run + [Turn(a, ch)];
    if run == [] {
      assert longer[1..] == [];
    } else {
      assert longer[1..] == run[1..] + [Turn(a, ch)];
      PlaySnoc(Act(s, run[0].action, run[0].choice), run[1..], a, ch);
    }
  }

  /** What matters of a state in which client 7 is connected and no timer is running. */
  datatype Snap = Snap(control: Socket, hanging: Socket, queue: seq<UiEvent>, pending: seq<string>, peer: int,
                       signalledFor: seq<int>, fates: seq<Fate>)

  /** Client 7 has just signed in. */
  const SIGNED_IN := Snap(Closed, Connecting, [Send(None)], [], -1, [], [])

  predicate Looks(s: System, k: Snap) {
    && s.client.state == CONNECTED && s.client.myId == 7 && s.client.control == k.control && s.client.retries == 0
    && s.queue == k.queue && s.session.pending == k.pending && s.session.peerId == k.peer && !s.session.loopback
    && s.session.connection == (k.peer != -1)
    && s.client.hanging == k.hanging && s.client.notificationData == ""
    && s.signalledFor == k.signalledFor && s.fates == k.fates
  }

  /** `run` is a run from the start that ends looking like k. */
  predicate Reaches(run: seq<Turn>, k: Snap) {
    CanPlay(START, run) && Looks(Play(START, run), k)
  }

  lemma Extend(run: seq<Turn>, a: Action, k: Snap) returns (longer: seq<Turn>)
    requires CanPlay(START, run) && CanAct(Play(START, run), a) && Looks(Act(Play(START, run), a, CH), k)
    ensures longer == run + [Turn(a, CH)] && Reaches(longer, k)
  {
    hide CanAct, Act, Looks;
    longer := run + [Turn(a, CH)];
    PlaySnoc(START, run, a, CH);
  }

  // ---------------------------------------------------------------- single turns

  /** A socket event that makes no calls moves the client alone. */
  lemma QuietEvent(s: System, e: Event)
    requires CanAct(s, Socket(e)) && (e == ControlConnected || e == HangingConnected)
    ensures Act(s, Socket(e), CH) == s.(client := PeerClient.Step(s.client, e, CH.env))
  {
    hide Deliver, SignsOut, Sender, ServerAssignsId;
    DeliverNothing(s, PeerClient.Step(s.client, e, CH.env), CH);
  }

  lemma DeliverSent(s: System, client: Client, more: seq<Callback>)
    requires client.calls == s.client.calls + [MessageSent(0)] + more && (more == [] || more == [SignedIn])
    ensures Deliver(s, client, CH) == s.(client := client, queue := s.queue + [Send(None)])
  {
    var added := client.calls[|s.client.calls|..];
    assert added == [MessageSent(0)] + more;
    var t := s.(client := client);
    var one := [MessageSent(0)];
    assert one[..0] == [] && one[0] == MessageSent(0);
    assert ObserveAll(t, [], CH) == t;
    assert ObserveAll(t, one, CH) == Observe(t, MessageSent(0), CH);
    if more == [] {
      assert added == one;
    } else {
      assert added[..1] == one && added[1] == SignedIn;
    }
  }

  lemma Login(s: System)
    requires s == START
    ensures CanAct(s, StartLogin("server", "name"))
    ensures var t := Act(s, StartLogin("server", "name"), CH);
      && t.client.state == SIGNING_IN && t.client.myId == -1 && t.client.control == Connecting
      && t.client.controlData == "" && t.client.notificationData == "" && t.client.retries == 0
      && t == s.(client := t.client)
  {
    hide Deliver, SignInRequest;
    DeliverNothing(s, ConnectStep(s.client, "server", "name", CH.env), CH);
  }

  lemma ReplyArrives(s: System)
    requires s.client.state == SIGNING_IN && s.client.myId == -1 && s.client.control == Open
    requires s.client.controlData == "" && s.client.retries == 0 && s.queue == [] && s.session == IDLE
    requires s.client.notificationData == "" && s.signalledFor == [] && s.fates == []
    ensures CanAct(s, Socket(ControlRead(REPLY)))
    ensures Looks(Act(s, Socket(ControlRead(REPLY)), CH), SIGNED_IN)
  {
    hide Deliver, ControlReads, SignsOut, Sender, ServerAssignsId;
    var e := ControlRead(REPLY);
    var env := CH.env.(observerSignsOut := SignsOut(s.session, Sender(s.client, e), CH.kind, CH.factoryOk));
    ReplySignsIn(s.client, env);
    DeliverSent(s, ControlReads(s.client, REPLY, env), [SignedIn]);
    assert [] + [Send(None)] == [Send(None)];
  }

  // ---------------------------------------------------------------- runs, turn by turn

  lemma SignedInRun() returns (run: seq<Turn>)
    ensures Reaches(run, SIGNED_IN)
  {
    assert CanPlay(START, []) && Play(START, []) == START;
    Login(START);
    PlaySnoc(START, [], StartLogin("server", "name"), CH);
    run := [] + [Turn(StartLogin("server", "name"), CH)];
    var s1 := Play(START, run);
    hide Act, CanPlay, Play;
    assert CanAct(s1, Socket(ControlConnected));
    QuietEvent(s1, ControlConnected);
    PlaySnoc(START, run, Socket(ControlConnected), CH);
    run := run + [Turn(Socket(ControlConnected), CH)];
    ReplyArrives(Play(START, run));
    run := Extend(run, Socket(ControlRead(REPLY)), SIGNED_IN);
  }

  lemma ThenConnect(run: seq<Turn>, k: Snap, peer: int) returns (longer: seq<Turn>)
    requires Reaches(run, k) && k.peer == -1 && peer != -1
    ensures Reaches(longer, k.(peer := peer))
  {
    longer := Extend(run, UserConnects(peer), k.(peer := peer));
  }

  lemma ThenSignal(run: seq<Turn>, k: Snap, message: string) returns (longer: seq<Turn>)
    requires Reaches(run, k)
    ensures Reaches(longer, k.(queue := k.queue + [Send(Some(message))], signalledFor := k.signalledFor + [k.peer]))
  {
    longer := Extend(run, Signal(message),
                     k.(queue := k.queue + [Send(Some(message))], signalledFor := k.signalledFor + [k.peer]));
  }

  lemma ThenHangUp(run: seq<Turn>, k: Snap) returns (longer: seq<Turn>)
    requires Reaches(run, k) && k.peer != -1 && k.control == Closed
    ensures Reaches(longer, k.(peer := -1, control := Connecting))
  {
    var s := Play(START, run);
    hide CanPlay, Play, Deliver, MessageRequest;
    DeliverNothing(s, SendStep(s.client, s.session.peerId, BYE, CH.env), CH);
    longer := Extend(run, DisconnectFromCurrentPeer, k.(peer := -1, control := Connecting));
  }

  function AfterQueueing(k: Snap): Snap
    requires k.queue != [] && k.queue[0].Send?
  {
    k.(queue := k.queue[1..],
       pending := if k.queue[0].message.Some? then k.pending + [k.queue[0].message.value] else k.pending)
  }

  lemma QueueingLooks(s: System, k: Snap)
    requires SystemInv(s) && Looks(s, k) && k.queue != [] && k.queue[0].Send?
    requires k.control != Closed || (k.pending == [] && k.queue[0].message.None?)
    ensures CanAct(s, UiTurn) && Looks(Act(s, UiTurn, CH), AfterQueueing(k))
  {
    hide Inv, SendTurn, Queued, HandOver;
    SendTurnIs(s.(queue := s.queue[1..]), k.queue[0].message, CH);
  }

  /** The next send event while the control socket is in use, or nothing is waiting. */
  lemma ThenQueue(run: seq<Turn>, k: Snap) returns (longer: seq<Turn>)
    requires Reaches(run, k) && k.queue != [] && k.queue[0].Send?
    requires k.control != Closed || (k.pending == [] && k.queue[0].message.None?)
    ensures Reaches(longer, AfterQueueing(k))
  {
    Reachable(run);
    hide CanPlay, Play, SystemInv, Looks, Act, CanAct;
    QueueingLooks(Play(START, run), k);
    longer := Extend(run, UiTurn, AfterQueueing(k));
  }

  /** A hand-over on a connected, idle client whose connect succeeds. */
  lemma HandsToPeer(s: System)
    requires s.client.state == CONNECTED && s.client.myId == 7 && s.client.control == Closed && s.client.retries == 0
    requires s.session.pending != []
    ensures var t := HandOver(s, CH);
      && t == s.(client := t.client, session := s.session.(pending := s.session.pending[1..]),
                 handed := s.handed + [s.session.pending[0]], fates := s.fates + [FateOf(s, CH)])
      && t.client.hanging == s.client.hanging && t.client.notificationData == s.client.notificationData
      && t.client.state == CONNECTED && t.client.myId == 7 && t.client.retries == 0
      && t.client.control == if s.session.peerId == -1 then Closed else Connecting
  {
    hide Deliver, MessageRequest, Disconnect;
    var message := s.session.pending[0];
    var t := s.(session := s.session.(pending := s.session.pending[1..]), handed := s.handed + [message],
                fates := s.fates + [FateOf(s, CH)]);
    DeliverNothing(t, SendStep(t.client, t.session.peerId, message, CH.env), CH);
  }

  function AfterHandOver(k: Snap): Snap
    requires k.queue != [] && k.queue[0].Send? && (k.pending != [] || k.queue[0].message.Some?)
  {
    var waiting := if k.queue[0].message.Some? then k.pending + [k.queue[0].message.value] else k.pending;
    k.(queue := k.queue[1..], pending := waiting[1..],
       fates := k.fates + [if k.peer == -1 then Dropped else GivenTo(k.peer)],
       control := if k.peer == -1 then Closed else Connecting)
  }

  lemma HandOverLooks(s: System, k: Snap)
    requires SystemInv(s) && Looks(s, k) && k.control == Closed
    requires k.queue != [] && k.queue[0].Send? && (k.pending != [] || k.queue[0].message.Some?)
    ensures CanAct(s, UiTurn) && Looks(Act(s, UiTurn, CH), AfterHandOver(k))
  {
    var waiting := Waiting(s, k.queue[0].message);
    var t := s.(queue := s.queue[1..]);
    hide Inv, SendTurn, Queued, HandOver;
    SendTurnIs(t, k.queue[0].message, CH);
    HandsToPeer(t.(session := t.session.(pending := waiting)));
  }

  /** The next send event hands the first waiting message over. */
  lemma ThenHandOver(run: seq<Turn>, k: Snap) returns (longer: seq<Turn>)
    requires Reaches(run, k) && k.control == Closed
    requires k.queue != [] && k.queue[0].Send? && (k.pending != [] || k.queue[0].message.Some?)
    ensures Reaches(longer, AfterHandOver(k))
  {
    Reachable(run);
    hide CanPlay, Play, SystemInv, Looks, Act, CanAct;
    HandOverLooks(Play(START, run), k);
    longer := Extend(run, UiTurn, AfterHandOver(k));
  }

  /** The control socket connects, and the server closes it after the request. */
  lemma ThenSent(run: seq<Turn>, k: Snap) returns (longer: seq<Turn>)
    requires Reaches(run, k) && k.control == Connecting
    ensures Reaches(longer, k.(control := Closed, queue := k.queue + [Send(None)]))
  {
    var s := Play(START, run);
    assert CanAct(s, Socket(ControlConnected));
    QuietEvent(s, ControlConnected);
    longer := Extend(run, Socket(ControlConnected), k.(control := Open));
    var t := Play(START, longer);
    hide CanPlay, Play, Deliver, SignsOut, Sender;
    DeliverSent(t, ControlCloses(t.client, false, 0), []);
    assert t.client.calls + [MessageSent(0)] + [] == t.client.calls + [MessageSent(0)];
    longer := Extend(longer, Socket(ControlClosed(false, 0)), k.(control := Closed, queue := k.queue + [Send(None)]));
  }

  // ---------------------------------------------------------------- the scenarios

  /** Two messages are signalled for peer 2 and wait in the UI queue. */
  lemma SignalledRun() returns (run: seq<Turn>)
    ensures Reaches(run, Snap(Closed, Connecting, [Send(None), Send(Some("a")), Send(Some("b"))], [], 2, [2, 2], []))
  {
    hide Reaches;
    run := SignedInRun();
    var k0 := SIGNED_IN;
    run := ThenConnect(run, k0, 2);
    run := ThenSignal(run, k0.(peer := 2), "a");
    var k1 := Snap(Closed, Connecting, [Send(None), Send(Some("a"))], [], 2, [2], []);
    assert [Send(None)] + [Send(Some("a"))] == k1.queue && [] + [2] == k1.signalledFor;
    run := ThenSignal(run, k1, "b");
    assert k1.queue + [Send(Some("b"))] == [Send(None), Send(Some("a")), Send(Some("b"))] && [2] + [2] == [2, 2];
  }

  /** Peer 2 is hung up on before either is handed over. */
  lemma HungUpRun() returns (run: seq<Turn>)
    ensures Reaches(run, Snap(Closed, Connecting, [Send(None)], ["a", "b"], -1, [2, 2], []))
  {
    hide Reaches;
    run := SignalledRun();
    var k2 := Snap(Closed, Connecting, [Send(None), Send(Some("a")), Send(Some("b"))], [], 2, [2, 2], []);
    run := ThenHangUp(run, k2);
    run := ThenQueue(run, k2.(peer := -1, control := Connecting));
    var k3 := Snap(Connecting, Connecting, [Send(Some("a")), Send(Some("b"))], [], -1, [2, 2], []);
    assert k2.queue[1..] == k3.queue;
    run := ThenQueue(run, k3);
    var k4 := Snap(Connecting, Connecting, [Send(Some("b"))], ["a"], -1, [2, 2], []);
    assert k3.queue[1..] == k4.queue && [] + ["a"] == k4.pending;
    run := ThenQueue(run, k4);
    var k5 := Snap(Connecting, Connecting, [], ["a", "b"], -1, [2, 2], []);
    assert k4.queue[1..] == k5.queue && ["a"] + ["b"] == k5.pending;
    run := ThenSent(run, k5);
    assert k5.queue + [Send(None)] == [Send(None)];
  }

  /**
    A lost wake-up. The goodbye is sent, which makes the client look at the queue once; that hands "a"
    over without a peer, and "b" is left waiting on an idle connection with nothing to look at it.
   */
  lemma MessageSleeps() returns (run: seq<Turn>)
    ensures CanPlay(START, run) && !AlwaysAwake(START, run) && EverSleepy(START, run)
    ensures var s := Play(START, run);
      && s.client.state == CONNECTED && !IsSending(s.client) && s.session.pending == ["b"]
      && s.queue == [] && s.client.retries == 0
  {
    hide Reaches, CanPlay, Play, AlwaysAwake, EverSleepy, Looks, Awake;
    run := HungUpRun();
    var k := Snap(Closed, Connecting, [Send(None)], ["a", "b"], -1, [2, 2], []);
    run := ThenHandOver(run, k);
    var asleep := Snap(Closed, Connecting, [], ["b"], -1, [2, 2], [Dropped]);
    assert k.queue[1..] == [] && ["a", "b"][1..] == ["b"] && [] + [Dropped] == [Dropped];
    ReachedAt(run, asleep);
    Sleeps(Play(START, run), asleep);
    if AlwaysAwake(START, run) { AwakeAtEnd(START, run); }
    NoWakeUpIsLostIff(run);
  }

  lemma ReachedAt(run: seq<Turn>, k: Snap)
    requires Reaches(run, k)
    ensures CanPlay(START, run) && Looks(Play(START, run), k)
  {}

  lemma Sleeps(s: System, k: Snap)
    requires Looks(s, k) && k.control == Closed && k.queue == [] && k.pending != []
    ensures !Awake(s) && !IsSending(s.client) && s.client.state == CONNECTED && s.client.retries == 0
    ensures s.queue == k.queue && s.session.pending == k.pending
  {}

  lemma {:induction false} AwakeAtEnd(s: System, run: seq<Turn>)
    requires CanPlay(s, run) && AlwaysAwake(s, run)
    ensures Awake(Play(s, run))
    decreases |run|
  {
    hide Act, CanAct, Awake;
    if run != [] { AwakeAtEnd(Act(s, run[0].action, run[0].choice), run[1..]); }
  }

  /** A message that was signalled for peer 2 is accepted for peer 3, whom the user calls next. */
  lemma MessageReachesStranger() returns (run: seq<Turn>)
    ensures CanPlay(START, run) && !NoneStray(Play(START, run))
    ensures Play(START, run).signalledFor == [2, 2] && Play(START, run).fates == [GivenTo(3)]
  {
    run := HungUpRun();
    var k := Snap(Closed, Connecting, [Send(None)], ["a", "b"], -1, [2, 2], []);
    run := ThenConnect(run, k, 3);
    run := ThenHandOver(run, k.(peer := 3));
    assert [] + [GivenTo(3)] == [GivenTo(3)];
    hide CanPlay, Play;
    assert [GivenTo(3)][0] == GivenTo(3) && [2, 2][0] == 2;
  }

  /** Peer 2 is called, and its first message waits in the UI queue. */
  lemma FirstMessageRun() returns (run: seq<Turn>)
    ensures Reaches(run, Snap(Closed, Connecting, [Send(Some("a"))], [], 2, [2], []))
  {
    hide Reaches;
    run := SignedInRun();
    var k0 := SIGNED_IN;
    run := ThenConnect(run, k0, 2);
    run := ThenQueue(run, k0.(peer := 2));
    var k1 := Snap(Closed, Connecting, [], [], 2, [], []);
    assert k0.queue[1..] == k1.queue;
    run := ThenSignal(run, k1, "a");
    assert [] + [Send(Some("a"))] == [Send(Some("a"))] && [] + [2] == [2];
  }

  lemma FailingHandOver(s: System)
    requires SystemInv(s) && Looks(s, Snap(Closed, Connecting, [Send(Some("a"))], [], 2, [2], []))
    ensures CanAct(s, UiTurn)
    ensures Act(s, UiTurn, FAILING).signalledFor == [2] && Act(s, UiTurn, FAILING).fates == [Dropped]
  {
    assert Waiting(s, Some("a")) == ["a"] && s.queue[0] == Send(Some("a"));
    MailMoves(s, UiTurn, FAILING);
    hide Act, SystemInv;
    assert [] + [Dropped] == [Dropped];
  }

  /** A message for the right peer reaches nobody: the connect for it fails as it is handed over. */
  lemma MessageIsDropped() returns (run: seq<Turn>)
    ensures CanPlay(START, run) && !NoneDropped(Play(START, run)) && NoneStray(Play(START, run))
    ensures Play(START, run).signalledFor == [2] && Play(START, run).fates == [Dropped]
  {
    run := FirstMessageRun();
    Reachable(run);
    assert CanPlay(START, []) && Play(START, []) == START;
    Reachable([]);
    hide CanPlay, Play, Act, CanAct, Looks, SystemInv;
    FailingHandOver(Play(START, run));
    PlaySnoc(START, run, UiTurn, FAILING);
    run := run + [Turn(UiTurn, FAILING)];
    RunIsLogged(START, run);
    assert [Dropped][0] == Dropped;
  }

  /** The check at line 155 fails on the hang-up path. */
  predicate HangUpFailsCheck(s: System) {
    s.session.connection && s.client.state == CONNECTED && s.client.control != Closed
  }

  /** A hang-up meets the check exactly if there is no session or no message is on its way. */
  lemma HangUpCheckIff(s: System)
    ensures CanAct(s, DisconnectFromCurrentPeer) <==> !s.session.connection || !IsSending(s.client)
    ensures HangUpFailsCheck(s) <==> !CanAct(s, DisconnectFromCurrentPeer)
  {}

  /** Calling someone and hanging up while the first message is on its way fails the check. */
  lemma HangUpDuringSend() returns (run: seq<Turn>)
    ensures CanPlay(START, run) && HangUpFailsCheck(Play(START, run))
  {
    run := FirstMessageRun();
    run := ThenHandOver(run, Snap(Closed, Connecting, [Send(Some("a"))], [], 2, [2], []));
    hide CanPlay, Play;
  }

  // ---------------------------------------------------------------- a close for the wrong session

  lemma ThenListen(run: seq<Turn>, k: Snap) returns (longer: seq<Turn>)
    requires Reaches(run, k) && k.hanging == Connecting
    ensures Reaches(longer, k.(hanging := Open))
  {
    var s := Play(START, run);
    assert CanAct(s, Socket(HangingConnected));
    QuietEvent(s, HangingConnected);
    longer := Extend(run, Socket(HangingConnected), k.(hanging := Open));
  }

  lemma GoodbyeAllowed(s: System)
    requires s.client.state == CONNECTED && s.client.myId == 7 && s.client.hanging == Open
    requires s.client.notificationData == ""
    ensures CanAct(s, Socket(HangingRead(Reply(2, BYE))))
  {
    hide Reply, PragmaId, HeaderEnd, HangingReads;
    GoodbyeArrives(s.client, CH.env);
    assert "" + Reply(2, BYE) == Reply(2, BYE);
  }

  lemma GoodbyeLooks(s: System, k: Snap)
    requires Looks(s, k) && k.hanging == Open && k.peer == 2
    ensures CanAct(s, Socket(HangingRead(Reply(2, BYE))))
    ensures Looks(Act(s, Socket(HangingRead(Reply(2, BYE))), CH),
                  k.(hanging := Connecting, queue := k.queue + [ConnectionClosed(2)]))
  {
    hide Reply, CanAct, Deliver, HangingReads, SignsOut, Sender, PragmaId, HeaderEnd;
    GoodbyeAllowed(s);
    var e := HangingRead(Reply(2, BYE));
    var env := CH.env.(observerSignsOut := SignsOut(s.session, Sender(s.client, e), CH.kind, CH.factoryOk));
    GoodbyeArrives(s.client, env);
    DeliverOne(s, HangingReads(s.client, Reply(2, BYE), env), PeerDisconnected(2));
  }

  lemma DeliverOne(s: System, client: Client, call: Callback)
    requires client.calls == s.client.calls + [call]
    ensures Deliver(s, client, CH) == Observe(s.(client := client), call, CH)
  {
    var added := client.calls[|s.client.calls|..];
    assert added == [call] && added[..0] == [];
    assert ObserveAll(s.(client := client), [], CH) == s.(client := client);
  }

  /** The peer says goodbye, which posts a close for it. */
  lemma ThenGoodbye(run: seq<Turn>, k: Snap) returns (longer: seq<Turn>)
    requires Reaches(run, k) && k.hanging == Open && k.peer == 2
    ensures Reaches(longer, k.(hanging := Connecting, queue := k.queue + [ConnectionClosed(2)]))
  {
    hide Reply, CanPlay, Play, Looks, Act, CanAct;
    GoodbyeLooks(Play(START, run), k);
    longer := Extend(run, Socket(HangingRead(Reply(2, BYE))),
                     k.(hanging := Connecting, queue := k.queue + [ConnectionClosed(2)]));
  }

  /** The next event is a close: it ends the session that is on, whosever it is. */
  lemma ThenClose(run: seq<Turn>, k: Snap) returns (longer: seq<Turn>)
    requires Reaches(run, k) && k.queue != [] && k.queue[0].ConnectionClosed?
    ensures longer == run + [Turn(UiTurn, CH)] && Reaches(longer, k.(queue := k.queue[1..], peer := -1))
  {
    longer := Extend(run, UiTurn, k.(queue := k.queue[1..], peer := -1));
  }

  /** Peer 2 leaves, the user hangs up and calls peer 3, and then the close posted for peer 2 is handled. */
  lemma CloseEndsNewCall() returns (run: seq<Turn>, longer: seq<Turn>)
    ensures CanPlay(START, run) && CanPlay(START, longer) && longer == run + [Turn(UiTurn, CH)]
    ensures var s := Play(START, run);
      s.session.connection && s.session.peerId == 3 && s.queue == [ConnectionClosed(2)] && !ClosesRight(s)
    ensures !Play(START, longer).session.connection
  {
    hide Reaches, CanPlay, Play, Looks;
    run := SignedInRun();
    run := ThenConnect(run, SIGNED_IN, 2);
    var k0 := SIGNED_IN.(peer := 2);
    run := ThenListen(run, k0);
    run := ThenGoodbye(run, k0.(hanging := Open));
    var k1 := Snap(Closed, Connecting, [Send(None), ConnectionClosed(2)], [], 2, [], []);
    assert [Send(None)] + [ConnectionClosed(2)] == k1.queue;
    run := ThenHangUp(run, k1);
    run := ThenConnect(run, k1.(peer := -1, control := Connecting), 3);
    run := ThenQueue(run, k1.(peer := 3, control := Connecting));
    var k2 := Snap(Connecting, Connecting, [ConnectionClosed(2)], [], 3, [], []);
    assert k1.queue[1..] == k2.queue;
    longer := ThenClose(run, k2);
    ReachedAt(run, k2);
    ReachedAt(longer, k2.(queue := k2.queue[1..], peer := -1));
    WrongClose(Play(START, run), k2);
    NoSession(Play(START, longer), k2.(queue := k2.queue[1..], peer := -1));
  }

  lemma WrongClose(s: System, k: Snap)
    requires Looks(s, k) && k.peer == 3 && k.queue == [ConnectionClosed(2)]
    ensures s.session.connection && s.session.peerId == 3 && s.queue == [ConnectionClosed(2)] && !ClosesRight(s)
  {
    assert s.queue[0] == ConnectionClosed(2);
  }

  lemma NoSession(s: System, k: Snap)
    requires Looks(s, k) && k.peer == -1
    ensures !s.session.connection
  {}
}
