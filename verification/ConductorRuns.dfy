/**
  The conductor over whole runs: every state keeps the invariants, one message is in flight at a time, a
  session keeps its peer, and exactly when a wake-up is lost.
 */
module ConductorRuns {
  import opened PeerClient
  import opened Conductor
  import opened ConductorProperties

  lemma {:induction false} PlayKeeps(s: System, run: seq<Turn>)
    requires SystemInv(s) && CanPlay(s, run)
    ensures SystemInv(Play(s, run))
    decreases |run|
  {
    hide SystemInv, Act, CanAct;
    if run != [] {
      ActKeeps(s, run[0].action, run[0].choice);
      PlayKeeps(Act(s, run[0].action, run[0].choice), run[1..]);
    }
  }

  lemma Reachable(run: seq<Turn>)
    requires CanPlay(START, run)
    ensures SystemInv(Play(START, run))
  {
    hide CanPlay, Play;
    assert SystemInv(START) && Awake(START);
    PlayKeeps(START, run);
  }

  // ---------------------------------------------------------------- one session, one peer

  /**
    At every event boundary of every run there is a connection exactly if there is a peer id and exactly
    if there is a factory, loopback needs a connection, and every remote description or candidate the
    present session applied came from its one peer. So the checks at lines 132, 133, 177, 178, 297 and
    306 never fail, and OnIceCandidate in loopback has a connection to use.
   */
  lemma OneSessionOnePeer(run: seq<Turn>)
    requires CanPlay(START, run)
    ensures var c := Play(START, run).session;
      && (c.connection <==> c.peerId != -1) && (c.connection <==> c.factory)
      && (c.loopback ==> c.connection)
      && (forall a | a in c.applied :: c.connection && a.peer == c.peerId)
  {
    Reachable(run);
  }

  /** The session lasts: there is a connection in every state of the run. */
  predicate SessionLasts(s: System, run: seq<Turn>)
    requires CanPlay(s, run)
    decreases |run|
  {
    && s.session.connection
    && (run != [] ==> SessionLasts(Act(s, run[0].action, run[0].choice), run[1..]))
  }

  lemma {:induction false} LastingKeepsPeer(s: System, run: seq<Turn>)
    requires SystemInv(s) && CanPlay(s, run) && SessionLasts(s, run)
    ensures Play(s, run).session.peerId == s.session.peerId
    decreases |run|
  {
    hide SystemInv, Act, CanAct;
    if run != [] {
      var t := Act(s, run[0].action, run[0].choice);
      ActKeeps(s, run[0].action, run[0].choice);
      LastingKeepsPeer(t, run[1..]);
      assert t.session.connection;
    }
  }

  /**
    After any run, through any further run in which the session lasts - sockets, user actions, UI turns,
    messages of strangers - the session keeps its peer.
   */
  lemma SessionKeepsItsPeer(run: seq<Turn>, more: seq<Turn>)
    requires CanPlay(START, run) && CanPlay(Play(START, run), more) && SessionLasts(Play(START, run), more)
    ensures Play(Play(START, run), more).session.peerId == Play(START, run).session.peerId
  {
    Reachable(run);
    hide SystemInv, SessionLasts;
    LastingKeepsPeer(Play(START, run), more);
  }

  // ---------------------------------------------------------------- order and flight

  /** Messages reach the client in the order they were signalled; none is lost, repeated or overtaken. */
  lemma MessagesKeepTheirOrder(run: seq<Turn>)
    requires CanPlay(START, run)
    ensures var s := Play(START, run); s.handed + s.session.pending + Queued(s.queue) == s.signalled
  {
    Reachable(run);
  }

  /** The turn hands a message over, whether or not SendToPeer accepts it. */
  predicate HandsOver(s: System, a: Action) {
    && a.UiTurn? && s.queue != [] && s.queue[0].Send?
    && Waiting(s, s.queue[0].message) != [] && !(s.client.state == CONNECTED && s.client.control != Closed)
  }

  /** The turn gives SendToPeer a message that it accepts: a pending one, or the goodbye of a hang-up. */
  predicate Launches(s: System, a: Action, ch: Choice) {
    && (HandsOver(s, a) || (a.DisconnectFromCurrentPeer? && s.session.connection))
    && SendSucceeds(s.client, s.session.peerId, ch.env)
  }

  predicate InUse(s: System) {
    s.client.control != Closed
  }

  /** The control socket leaves use in the turn: the reply is complete, or the connection is lost. */
  predicate Lands(s: System, a: Action, ch: Choice)
    requires CanAct(s, a)
  {
    InUse(s) && !InUse(Act(s, a, ch))
  }

  function Launched(s: System, run: seq<Turn>): nat
    requires CanPlay(s, run)
    decreases |run|
  {
    if run == [] then 0
    else
      var a, ch := run[0].action, run[0].choice;
      (if Launches(s, a, ch) then 1 else 0) + Launched(Act(s, a, ch), run[1..])
  }

  function Landed(s: System, run: seq<Turn>): nat
    requires CanPlay(s, run)
    decreases |run|
  {
    if run == [] then 0
    else
      var a, ch := run[0].action, run[0].choice;
      (if Lands(s, a, ch) then 1 else 0) + Landed(Act(s, a, ch), run[1..])
  }

  /** A message is launched only from a free socket, and the socket is in use afterwards. */
  lemma LaunchUsesTheSocket(s: System, a: Action, ch: Choice)
    requires SystemInv(s) && CanAct(s, a) && Launches(s, a, ch)
    ensures !InUse(s) && InUse(Act(s, a, ch))
  {
    match a
    case UiTurn =>
      var t := s.(queue := s.queue[1..]);
      var waiting := Waiting(s, s.queue[0].message);
      SendTurnIs(t, s.queue[0].message, ch);
      hide SystemInv, SendTurn, HandOver;
      assert Waiting(t, s.queue[0].message) == waiting;
      HandOverIs(t.(session := t.session.(pending := waiting)), ch);
    case DisconnectFromCurrentPeer =>
      SendReports(s.client, s.session.peerId, BYE, ch.env);
      hide SystemInv, SendStep, Deliver;
      DeliverNothing(s, SendStep(s.client, s.session.peerId, BYE, ch.env), ch);
  }

  lemma {:induction false} LaunchesAndLandings(s: System, run: seq<Turn>)
    requires SystemInv(s) && CanPlay(s, run)
    ensures Launched(s, run) + (if InUse(s) then 1 else 0) <= Landed(s, run) + (if InUse(Play(s, run)) then 1 else 0)
    decreases |run|
  {
    hide SystemInv, Act, CanAct, Launches, InUse;
    if run != [] {
      var a, ch := run[0].action, run[0].choice;
      ActKeeps(s, a, ch);
      if Launches(s, a, ch) { LaunchUsesTheSocket(s, a, ch); }
      LaunchesAndLandings(Act(s, a, ch), run[1..]);
    }
  }

  /**
    At most one message is in flight. In every reachable state the messages that SendToPeer accepted
    exceed the times the control socket came free by at most one, and by none while it is free.
   */
  lemma OneMessageInFlight(run: seq<Turn>)
    requires CanPlay(START, run)
    ensures Launched(START, run) <= Landed(START, run) + (if InUse(Play(START, run)) then 1 else 0)
  {
    assert SystemInv(START) && !InUse(START) by { assert CanPlay(START, []); Reachable([]); }
    hide SystemInv, InUse;
    LaunchesAndLandings(START, run);
  }

  // ---------------------------------------------------------------- wake-ups

  /** Waiting messages have something that will look at them in every state of the run. */
  predicate AlwaysAwake(s: System, run: seq<Turn>)
    requires CanPlay(s, run)
    decreases |run|
  {
    Awake(s) && (run != [] ==> AlwaysAwake(Act(s, run[0].action, run[0].choice), run[1..]))
  }

  predicate EverSleepy(s: System, run: seq<Turn>)
    requires CanPlay(s, run)
    decreases |run|
  {
    run != [] && (SleepyHandOver(s, run[0].action) || EverSleepy(Act(s, run[0].action, run[0].choice), run[1..]))
  }

  lemma {:induction false} AwakeIff(s: System, run: seq<Turn>)
    requires SystemInv(s) && Awake(s) && CanPlay(s, run)
    ensures AlwaysAwake(s, run) <==> !EverSleepy(s, run)
    decreases |run|
  {
    hide SystemInv, Act, CanAct, Awake, SleepyHandOver;
    if run != [] {
      var t := Act(s, run[0].action, run[0].choice);
      ActKeeps(s, run[0].action, run[0].choice);
      if Awake(t) { AwakeIff(t, run[1..]); }
    }
  }

  /**
    A run never lets a message sleep - waiting while the client is connected and its control socket
    free, with no send event queued and no reconnect timer running - if and only if it has no hand-over
    without a peer that leaves a message behind and nothing to look at it.
   */
  lemma NoWakeUpIsLostIff(run: seq<Turn>)
    requires CanPlay(START, run)
    ensures AlwaysAwake(START, run) <==> !EverSleepy(START, run)
  {
    assert CanPlay(START, []);
    Reachable([]);
    assert Awake(START);
    hide SystemInv, Awake;
    AwakeIff(START, run);
  }
}
