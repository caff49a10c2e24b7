/**
  The conductor's runs read as histories: the present call began with one of two causes, lasted, and was
  handed exactly its peer's descriptions and candidates; and the client inside runs as the client alone.
 */
module ConductorHistory {
  import opened HttpFraming
  import opened PeerClient
  import opened PeerTraffic
  import opened Conductor
  import opened ConductorProperties
  import opened ConductorRuns
  import opened ConductorTraffic

  // ---------------------------------------------------------------- the history of a call

  /** The user calls the peer, or the first message of the peer arrives, and a connection can be made. */
  predicate Begins(s: System, a: Action, ch: Choice, peer: int) {
    && ch.factoryOk
    && match a
       case UserConnects(id) => id == peer
       case Socket(e) =>
         var news := NewsIn(s.client, e);
         Spoken(news) && news.id == peer && ch.kind != OfferLoopback(false)
       case _ => false
  }

  /**
    The user hangs up or closes the window, a posted close is handled, the client loses the server, or the
    peer asks for a loopback that cannot be made.
   */
  predicate Ends(s: System, a: Action, ch: Choice) {
    match a
    case DisconnectFromCurrentPeer => true
    case CloseWindow => true
    case UiTurn => s.queue != [] && s.queue[0].ConnectionClosed?
    case Socket(e) =>
      var news := NewsIn(s.client, e);
      || LosesServer(s.client, e)
      || (Spoken(news) && news.id == s.session.peerId && ch.kind == OfferLoopback(false))
    case _ => false
  }

  /** The description or candidate that the turn brings from the peer, or from the first to send one. */
  function Accepted(s: System, a: Action, ch: Choice): seq<Applied> {
    if !a.Socket? then []
    else
      var news := NewsIn(s.client, a.event);
      if Spoken(news) && (s.session.connection ==> news.id == s.session.peerId)
         && (ch.kind.Description? || ch.kind == Candidate(true))
      then [Applied(news.id, news.text)] else []
  }

  lemma LosesIsNotSpoken(c: Client, e: Event)
    ensures LosesServer(c, e) ==> !Spoken(NewsIn(c, e))
  {
    hide NewsOf, Complete, Status;
  }

  /** A session begins in a turn exactly by one of the two causes, with the peer of the cause. */
  lemma SessionBeginsIff(s: System, a: Action, ch: Choice, peer: int)
    requires SystemInv(s) && CanAct(s, a) && !s.session.connection
    ensures var t := Act(s, a, ch).session;
      && (t.connection && t.peerId == peer <==> Begins(s, a, ch, peer))
      && (t.connection ==> t.applied == Accepted(s, a, ch))
  {
    hide Act, CanAct, SystemInv, NewsIn, LosesServer;
    CallOfTurn(s, a, ch);
    if a.Socket? { LosesIsNotSpoken(s.client, a.event); }
  }

  /** A session ends in a turn exactly by one of the causes listed, and otherwise goes on with its peer. */
  lemma SessionEndsIff(s: System, a: Action, ch: Choice)
    requires SystemInv(s) && CanAct(s, a) && s.session.connection
    ensures var t := Act(s, a, ch).session;
      && (t.connection <==> !Ends(s, a, ch))
      && (t.connection ==> t.peerId == s.session.peerId && t.applied == s.session.applied + Accepted(s, a, ch))
  {
    hide Act, CanAct, SystemInv, NewsIn, LosesServer;
    CallOfTurn(s, a, ch);
    if a.Socket? { LosesIsNotSpoken(s.client, a.event); }
    assert s.session.applied + [] == s.session.applied;
  }

  function AcceptedIn(s: System, run: seq<Turn>): seq<Applied>
    requires CanPlay(s, run)
    decreases |run|
  {
    if run == [] then []
    else
      Accepted(s, run[0].action, run[0].choice) + AcceptedIn(Act(s, run[0].action, run[0].choice), run[1..])
  }

  /** While a session lasts, its connection is handed exactly what its peer sends it, in order. */
  lemma {:induction false} LastingApplies(s: System, run: seq<Turn>)
    requires SystemInv(s) && CanPlay(s, run) && SessionLasts(s, run)
    ensures var t := Play(s, run).session;
      t.connection && t.peerId == s.session.peerId && t.applied == s.session.applied + AcceptedIn(s, run)
    decreases |run|
  {
    hide SystemInv, Act, CanAct, Ends, Accepted;
    if run == [] {
      assert s.session.applied + [] == s.session.applied;
    } else {
      var a, ch := run[0].action, run[0].choice;
      var t := Act(s, a, ch);
      ActKeeps(s, a, ch);
      assert t.session.connection;
      SessionEndsIff(s, a, ch);
      LastingApplies(t, run[1..]);
      Associates(s.session.applied, Accepted(s, a, ch), AcceptedIn(t, run[1..]));
    }
  }

  /** Some turn of the run begins the session `c`, which lasts from then on and is handed this since. */
  predicate BeganAndLasted(s: System, run: seq<Turn>, c: Session)
    requires CanPlay(s, run)
    decreases |run|
  {
    && run != []
    && var a, ch := run[0].action, run[0].choice;
       var t := Act(s, a, ch);
       || (&& !s.session.connection && Begins(s, a, ch, c.peerId) && SessionLasts(t, run[1..])
           && c.applied == Accepted(s, a, ch) + AcceptedIn(t, run[1..]))
       || BeganAndLasted(t, run[1..], c)
  }

  lemma {:induction false} StoryOfRun(s: System, run: seq<Turn>)
    requires SystemInv(s) && CanPlay(s, run) && Play(s, run).session.connection
    ensures (s.session.connection && SessionLasts(s, run)) || BeganAndLasted(s, run, Play(s, run).session)
    decreases |run|
  {
    hide SystemInv, Act, CanAct, Ends, Accepted, Begins;
    if run != [] {
      var a, ch := run[0].action, run[0].choice;
      var t := Act(s, a, ch);
      ActKeeps(s, a, ch);
      StoryOfRun(t, run[1..]);
      if t.session.connection && SessionLasts(t, run[1..]) && !s.session.connection {
        SessionBeginsIff(s, a, ch, t.session.peerId);
        LastingApplies(t, run[1..]);
      }
    }
  }

  /**
    Whenever a run ends with a session, one of its turns began it - the user called this peer, or a first
    message of this peer arrived - it has lasted since, and its connection was handed exactly the
    descriptions and candidates this peer sent since, in order.
   */
  lemma PresentSession(run: seq<Turn>)
    requires CanPlay(START, run) && Play(START, run).session.connection
    ensures BeganAndLasted(START, run, Play(START, run).session)
  {
    assert CanPlay(START, []);
    Reachable([]);
    hide SystemInv, Act, CanAct;
    StoryOfRun(START, run);
  }

  // ---------------------------------------------------------------- the client inside the conductor

  /** Everything the client is asked to do in the run. */
  function Inputs(s: System, run: seq<Turn>): seq<Input>
    requires CanPlay(s, run)
    decreases |run|
  {
    if run == [] then []
    else
      ClientInputs(s, run[0].action, run[0].choice) + Inputs(Act(s, run[0].action, run[0].choice), run[1..])
  }

  lemma {:induction false} RunsJoin(c: Client, a: seq<Input>, b: seq<Input>)
    requires CanRun(c, a) && CanRun(Run(c, a), b)
    ensures CanRun(c, a + b) && Run(c, a + b) == Run(Run(c, a), b)
    decreases |a|
  {
    hide PeerClient.Step, Enabled, ServerAssignsId;
    if a == [] {
      assert a + b == b;
    } else {
      assert (a + b)[0] == a[0] && (a + b)[1..] == a[1..] + b;
      RunsJoin(PeerClient.Step(c, a[0].event, a[0].env), a[1..], b);
    }
  }

  lemma {:induction false} ClientOfRun(s: System, run: seq<Turn>)
    requires SystemInv(s) && CanPlay(s, run)
    ensures CanRun(s.client, Inputs(s, run)) && Run(s.client, Inputs(s, run)) == Play(s, run).client
    decreases |run|
  {
    hide SystemInv, Act, CanAct, ClientInputs;
    if run != [] {
      var a, ch := run[0].action, run[0].choice;
      ActKeeps(s, a, ch);
      ClientOfTurn(s, a, ch);
      ClientOfRun(Act(s, a, ch), run[1..]);
      hide Run, CanRun;
      RunsJoin(s.client, ClientInputs(s, a, ch), Inputs(Act(s, a, ch), run[1..]));
    }
  }

  /**
    The client in every run of the conductor has run as a client on its own, on just what the conductor
    asked of it: whatever holds of the client's runs holds of it here.
   */
  lemma ClientRunsAlone(run: seq<Turn>)
    requires CanPlay(START, run)
    ensures CanRun(PeerClient.INIT, Inputs(START, run))
    ensures Play(START, run).client == Run(PeerClient.INIT, Inputs(START, run))
  {
    assert CanPlay(START, []);
    Reachable([]);
    hide SystemInv, Act, CanAct, CanRun;
    ClientOfRun(START, run);
  }
}
