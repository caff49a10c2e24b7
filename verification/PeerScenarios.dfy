/**
  Concrete runs of the signalling client from its start, with replies written out as the server sends
  them. They show that the failures in `PeerClientProperties` and `PeerSockets` do happen.
 */
module PeerScenarios {
  import opened Text
  import opened HttpFraming
  import opened PeerEntries
  import opened PeerClient
  import opened PeerClientProperties
  import opened PeerReplies
  import opened PeerSockets

  /** The sign-in reply for the client with id 7, the first member. */
  const REPLY := Reply(7, "")

  /** A client that is waiting for its first reply and gets this one is connected, and its socket is free. */
  lemma ReplySignsIn(c: Client, env: Env)
    requires c.state == SIGNING_IN && c.myId == -1 && c.control == Open && c.controlData == ""
    ensures Enabled(c, ControlRead(REPLY)) && ServerAssignsId(c, ControlRead(REPLY))
    ensures var t := ControlReads(c, REPLY, env);
      && t.state == CONNECTED && t.myId == 7 && t.control == Closed && t.retries == c.retries && t.peers == c.peers
      && t.controlData == "" && t.notificationData == c.notificationData
      && (env.hangingConnects ==> t.hanging == Connecting)
      && t.calls == c.calls + [MessageSent(0)] + [SignedIn]
  {
    hide Reply, Complete, ShouldClose, Status, PragmaId, ContentLength, HeaderEnd, BodyOf, BodyEntries;
    ReplyMeans(7, "");
    CompleteHasHeaders(REPLY);
    assert "" + REPLY == REPLY;
  }

  /** A goodbye from peer 2 on the hanging GET: one call, and the client listens again. */
  lemma GoodbyeArrives(c: Client, env: Env)
    requires c.state == CONNECTED && c.myId == 7 && c.hanging == Open && c.notificationData == ""
    requires env.hangingConnects
    ensures HeaderEnd(Reply(2, BYE)) != NPOS && PragmaId(Reply(2, BYE)) == 2
    ensures HangingReads(c, Reply(2, BYE), env) == c.(hanging := Connecting, calls := c.calls + [PeerDisconnected(2)])
  {
    hide Reply, Complete, ShouldClose, Status, PragmaId, HeaderEnd, BodyOf, ParseEntry;
    ReplyMeans(2, BYE);
    assert "" + Reply(2, BYE) == Reply(2, BYE);
  }

  // ---------------------------------------------------------------- runs

  lemma {:induction false} RunSnoc(c: Client, run: seq<Input>, e: Event, env: Env)
    requires CanRun(c, run) && Enabled(Run(c, run), e) && ServerAssignsId(Run(c, run), e)
    ensures CanRun(c, run + [Input(e, env)])
    ensures Run(c, run + [Input(e, env)]) == Step(Run(c, run), e, env)
    decreases |run|
  {
    var longer := run + [Input(e, env)];
    if run == [] {
      assert longer[1..] == [];
    } else {
      assert longer[1..] == run[1..] + [Input(e, env)];
      RunSnoc(Step(c, run[0].event, run[0].env), run[1..], e, env);
    }
  }

  /** Signing in from the start. */
  lemma SignInRun(server: string, name: string, env: Env) returns (run: seq<Input>)
    requires server != "" && name != "" && env.controlConnects
    ensures CanRun(INIT, run)
    ensures var c := Run(INIT, run);
      && c.state == CONNECTED && c.myId == 7 && c.control == Closed && c.retries == 0
      && c.calls == [MessageSent(0), SignedIn] && c.controlData == ""
  {
    hide SignInRequest, ControlReads, HangingReads;
    run := [];
    RunSnoc(INIT, run, Connect(server, name), env);
    run := run + [Input(Connect(server, name), env)];
    var c1 := Run(INIT, run);
    hide Run, CanRun;
    RunSnoc(INIT, run, ControlConnected, env);
    run := run + [Input(ControlConnected, env)];
    var c2 := Run(INIT, run);
    ReplySignsIn(c2, env);
    RunSnoc(INIT, run, ControlRead(REPLY), env);
    run := run + [Input(ControlRead(REPLY), env)];
  }

  /**
    A connected client signs out while its control socket is free, and the connect for the sign-out
    request fails: it ends up NOT_CONNECTED, and OnDisconnected is never called.
   */
  lemma SilentSignOut(server: string, name: string, env: Env) returns (run: seq<Input>)
    requires server != "" && name != "" && env.controlConnects
    ensures CanRun(INIT, run) && run != [] && run[|run| - 1].event.SignOut?
    ensures Run(INIT, run).state == NOT_CONNECTED && Disconnects(Run(INIT, run).calls) == 0
  {
    run := SignInRun(server, name, env);
    var failing := env.(controlConnects := false);
    RunSnoc(INIT, run, SignOut, failing);
    run := run + [Input(SignOut, failing)];
    hide Run, CanRun;
    DisconnectsPush([], MessageSent(0));
    DisconnectsPush([MessageSent(0)], SignedIn);
    assert [] + [MessageSent(0)] == [MessageSent(0)] && [MessageSent(0)] + [SignedIn] == [MessageSent(0), SignedIn];
  }

  /**
    SendToPeer accepts a message, the connect for it is refused, and the reconnect timer signs in again:
    the message is never sent, and no observer call is made.
   */
  lemma MessageLostToRefusal(server: string, name: string, env: Env) returns (before: seq<Input>, run: seq<Input>)
    requires server != "" && name != "" && env.controlConnects
    ensures CanRun(INIT, before) && SendSucceeds(Run(INIT, before), 2, env)
    ensures CanRun(INIT, run) && |run| == |before| + 4 && run[..|before|] == before
    ensures run[|before|].event == SendMessage(2, "hello")
    ensures var c, t := Run(INIT, before), Run(INIT, run);
      !WasSent(t, c.ticket + 1) && t.control == Open && t.calls == c.calls
  {
    before := SignInRun(server, name, env);
    RunNumbered(INIT, before);
    var c := Run(INIT, before);
    assert !WasSent(c, c.ticket + 1);
    hide Run, CanRun, SignInRequest, MessageRequest, WasSent, Numbered;
    run := Then(before, SendMessage(2, "hello"), env);
    run := Then(run, ControlClosed(true, 0), env);
    run := Then(run, Retry, env);
    var t := Run(INIT, run);
    assert t.sent == c.sent && t.ticket == c.ticket + 2;
    SameSent(c, t, c.ticket + 1);
    ConnectedSends(t, env);
    run := Then(run, ControlConnected, env);
  }

  lemma SameSent(c: Client, t: Client, ticket: nat)
    requires t.sent == c.sent
    ensures WasSent(t, ticket) <==> WasSent(c, ticket)
  {}

  lemma Then(run: seq<Input>, e: Event, env: Env) returns (longer: seq<Input>)
    requires CanRun(INIT, run) && Enabled(Run(INIT, run), e) && ServerAssignsId(Run(INIT, run), e)
    ensures longer == run + [Input(e, env)] && CanRun(INIT, longer)
    ensures Run(INIT, longer) == Step(Run(INIT, run), e, env)
  {
    RunSnoc(INIT, run, e, env);
    longer := run + [Input(e, env)];
  }

  /** A connection that is lost after one character of its reply leaves this character to the next one. */
  lemma LeftOver(server: string, name: string, env: Env) returns (run: seq<Input>)
    requires server != "" && name != "" && env.controlConnects
    ensures CanRun(INIT, run) && !Clean(Run(INIT, run))
    ensures Run(INIT, run).control == Closed && Run(INIT, run).controlData == "H"
  {
    run := SignInRun(server, name, env);
    hide Run, CanRun, SignInRequest, MessageRequest;
    run := Then(run, SendMessage(2, "hello"), env);
    run := Then(run, ControlConnected, env);
    assert Run(INIT, run).controlData == "" && "" + "H" == "H";
    assert !Complete("H");
    run := Then(run, ControlRead("H"), env);
    run := Then(run, ControlClosed(false, 0), env);
  }

  /** A sign-out whose connection ends before the reply is stuck. */
  lemma StuckSignOut(server: string, name: string, env: Env) returns (run: seq<Input>)
    requires server != "" && name != "" && env.controlConnects
    ensures CanRun(INIT, run) && Stuck(Run(INIT, run))
  {
    run := SignInRun(server, name, env);
    hide Run, CanRun, SignOutRequest;
    run := Then(run, SignOut, env);
    run := Then(run, ControlClosed(false, 0), env);
  }
}
