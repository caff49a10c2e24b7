/**
  What the server gets of the messages the conductor signals: those given to SendToPeer, unaltered, in the
  order they were signalled and each for the peer it was given to, among goodbyes and requests to sign in or
  out.
 */
module ConductorLetters {
  import opened HttpFraming
  import opened PeerClient
  import opened PeerTraffic
  import opened PeerRuns
  import opened Conductor
  import opened ConductorProperties
  import opened ConductorRuns
  import opened ConductorMail
  import opened ConductorTraffic
  import opened ConductorHistory

  // ---------------------------------------------------------------- the request of a turn

  /** A hand-over that is accepted stages the message that has waited longest, for the present peer, in our name. */
  lemma HandOverStages(s: System, a: Action, ch: Choice)
    requires SystemInv(s) && CanAct(s, a) && HandsOver(s, a)
    requires s.client.state == CONNECTED && s.session.peerId != -1 && ch.env.controlConnects
    ensures var c := Act(s, a, ch).client;
      && |s.handed| < |s.signalled| && c.control == Connecting && c.ticket == s.client.ticket + 1
      && c.staged == MessageRequest(s.client.myId, s.session.peerId, s.signalled[|s.handed|])
  {
    ClientOfTurn(s, a, ch);
    OldestWaits(s);
    assert s.client.myId != -1;
    hide Act, SessionInv, InOrder, Waiting, Queued, MessageRequest, ServerAssignsId;
    var i := Input(SendMessage(s.session.peerId, Oldest(s)), ch.env);
    assert [i] + [] == [i];
    RunOne(s.client, i);
  }

  /** A hang-up that is accepted stages a goodbye to the present peer. */
  lemma HangUpStages(s: System, ch: Choice)
    requires SystemInv(s) && CanAct(s, DisconnectFromCurrentPeer) && s.session.connection
    requires s.client.state == CONNECTED && ch.env.controlConnects
    ensures var c := Act(s, DisconnectFromCurrentPeer, ch).client;
      && c.control == Connecting && c.ticket == s.client.ticket + 1
      && c.staged == MessageRequest(s.client.myId, s.session.peerId, "BYE")
  {
    ClientOfTurn(s, DisconnectFromCurrentPeer, ch);
    assert s.client.myId != -1 && s.session.peerId != -1;
    hide Act, SystemInv, MessageRequest;
    RunOne(s.client, Input(SendMessage(s.session.peerId, "BYE"), ch.env));
  }

  /** What a connect of the control socket is for: the k-th message signalled, a goodbye, signing in or out. */
  datatype Letter =
    | Mail(k: nat, from: int, to: int)
    | Goodbye(from: int, to: int)
    | SignInAs(name: string)
    | SignOutAs(id: int)

  function Text(signalled: seq<string>, l: Letter): string {
    match l
    case Mail(k, from, to) => if k < |signalled| then MessageRequest(from, to, signalled[k]) else ""
    case Goodbye(from, to) => MessageRequest(from, to, "BYE")
    case SignInAs(name) => SignInRequest(name)
    case SignOutAs(id) => SignOutRequest(id)
  }

  function Texts(signalled: seq<string>, letters: seq<Letter>): seq<string> {
    seq(|letters|, i requires 0 <= i < |letters| => Text(signalled, letters[i]))
  }

  predicate CanSend(s: System, ch: Choice) {
    s.client.state == CONNECTED && s.client.myId != -1 && s.session.peerId != -1 && ch.env.controlConnects
  }

  /** The letter of a turn: each is for one connect, and a turn makes at most one. */
  function LetterOf(s: System, a: Action, ch: Choice): seq<Letter>
    requires CanAct(s, a)
  {
    if HandsOver(s, a) && CanSend(s, ch) then [Mail(|s.handed|, s.client.myId, s.session.peerId)]
    else if a.DisconnectFromCurrentPeer? && s.session.connection && CanSend(s, ch) then
      [Goodbye(s.client.myId, s.session.peerId)]
    else if Act(s, a, ch).client.ticket == s.client.ticket then []
    else if a.StartLogin? then [SignInAs(a.name)]
    else if a == Socket(Retry) then [SignInAs(s.client.name)]
    else [SignOutAs(s.client.myId)]
  }

  lemma RequestsOfOne(c: Client, i: Input)
    requires Inv(c) && Enabled(c, i.event) && ServerAssignsId(c, i.event)
    ensures CanRun(c, [i]) && Requests(c, [i]) == Dialled(c, i.event, i.env)
    ensures Run(c, [i]).ticket == c.ticket + |Dialled(c, i.event, i.env)|
  {
    RunOne(c, i);
    RequestOfEvent(c, i.event, i.env);
    hide PeerClient.Step, Enabled, ServerAssignsId, Dialled;
    var t := PeerClient.Step(c, i.event, i.env);
    assert [i][1..] == [] && Requests(t, []) == [];
    assert Dialled(c, i.event, i.env) + [] == Dialled(c, i.event, i.env);
  }

  /** The request of an event that is not a message to send is to sign in, or to sign out under our id. */
  lemma OtherRequests(c: Client, e: Event, env: Env)
    requires !e.SendMessage?
    ensures Dialled(c, e, env) ==
      if Dialled(c, e, env) == [] then []
      else if e.Connect? then [SignInRequest(e.name)]
      else if e.Retry? then [SignInRequest(c.name)]
      else [SignOutRequest(c.myId)]
  {
    hide SignInRequest, SignOutRequest, NewsIn, Complete, ShouldClose, Status;
  }

  lemma TextsOfOne(signalled: seq<string>, l: Letter)
    ensures Texts(signalled, [l]) == [Text(signalled, l)] && Texts(signalled, []) == []
  {}

  /** A hand-over that is not accepted, on a client that is not connected, signs out if it can. */
  lemma RefusedRequests(s: System, ch: Choice)
    requires SystemInv(s) && HandsOver(s, UiTurn) && s.client.state != CONNECTED
    ensures var i := ClientInputs(s, UiTurn, ch);
      && CanRun(s.client, i) && Run(s.client, i).ticket == s.client.ticket + |Requests(s.client, i)|
      && (Requests(s.client, i) == [] || Requests(s.client, i) == [SignOutRequest(s.client.myId)])
  {
    var i, j := Input(SendMessage(s.session.peerId, Oldest(s)), ch.env), Input(SignOut, ch.env);
    RequestsOfOne(s.client, i);
    RequestsOfOne(s.client, j);
    OtherRequests(s.client, SignOut, ch.env);
    assert PeerClient.Step(s.client, i.event, i.env) == s.client;
    RunTwo(s.client, i, j);
    var two := [i] + [j];
    assert two[1..] == [j];
    assert Requests(s.client, two) == [] + Requests(s.client, [j]);
    assert [i] + [] == [i];
    hide Inv, SessionInv, InOrder, Waiting, PeerClient.Step, Requests, Run, CanRun, SignOutRequest;
  }

  lemma MessageRequests(c: Client, e: Event, env: Env)
    requires e.SendMessage?
    ensures Dialled(c, e, env) ==
      if c.state == CONNECTED && c.myId != -1 && e.peer != -1 && env.controlConnects
      then [MessageRequest(c.myId, e.peer, e.message)] else []
  {
    hide MessageRequest;
  }

  /** A hand-over on a connected client sends the oldest message, if it can send. */
  lemma AcceptedRequests(s: System, ch: Choice)
    requires SystemInv(s) && HandsOver(s, UiTurn) && s.client.state == CONNECTED
    ensures var i := ClientInputs(s, UiTurn, ch);
      && CanRun(s.client, i) && Run(s.client, i).ticket == s.client.ticket + |Requests(s.client, i)|
      && Requests(s.client, i) ==
           if CanSend(s, ch) then [MessageRequest(s.client.myId, s.session.peerId, Oldest(s))] else []
  {
    var i := Input(SendMessage(s.session.peerId, Oldest(s)), ch.env);
    assert [i] + [] == [i];
    assert Enabled(s.client, i.event) && ServerAssignsId(s.client, i.event);
    hide SessionInv, InOrder, Waiting, Requests, Run, CanRun, MessageRequest, Dialled, Enabled, ServerAssignsId;
    RequestsOfOne(s.client, i);
    MessageRequests(s.client, i.event, i.env);
  }

  lemma HandOverLetter(s: System, ch: Choice)
    requires SystemInv(s) && CanAct(s, UiTurn) && HandsOver(s, UiTurn)
    ensures var i := ClientInputs(s, UiTurn, ch);
      CanRun(s.client, i) && Requests(s.client, i) == Texts(s.signalled, LetterOf(s, UiTurn, ch))
  {
    hide Act, Inv, SessionInv, InOrder, Waiting, MessageRequest, SignOutRequest, Run, CanRun, Requests, Texts;
    hide ClientInputs;
    ClientOfTurn(s, UiTurn, ch);
    OldestWaits(s);
    TextsOfOne(s.signalled, SignOutAs(s.client.myId));
    TextsOfOne(s.signalled, Mail(|s.handed|, s.client.myId, s.session.peerId));
    if s.client.state != CONNECTED {
      RefusedRequests(s, ch);
    } else {
      AcceptedRequests(s, ch);
    }
  }

  lemma OneInputLetter(s: System, a: Action, ch: Choice, i: Input)
    requires SystemInv(s) && CanAct(s, a) && !HandsOver(s, a) && ClientInputs(s, a, ch) == [i]
    ensures CanRun(s.client, [i]) && Requests(s.client, [i]) == Texts(s.signalled, LetterOf(s, a, ch))
  {
    hide Act, SessionInv, InOrder, HandsOver, MessageRequest, SignOutRequest, SignInRequest, Run, CanRun, Requests;
    hide Enabled, ServerAssignsId, Inv, GivesUp, Dialled, Texts;
    ClientOfTurn(s, a, ch);
    InputAllowed(s.client, [i]);
    RequestsOfOne(s.client, i);
    TextsOfOne(s.signalled, if LetterOf(s, a, ch) == [] then SignOutAs(0) else LetterOf(s, a, ch)[0]);
    if i.event.SendMessage? {
      MessageRequests(s.client, i.event, i.env);
    } else {
      OtherRequests(s.client, i.event, i.env);
    }
  }

  lemma InputAllowed(c: Client, run: seq<Input>)
    requires CanRun(c, run) && run != []
    ensures Enabled(c, run[0].event) && ServerAssignsId(c, run[0].event)
  {
    hide Enabled, ServerAssignsId, PeerClient.Step;
  }

  /** What a turn makes the client connect for is the letter of the turn. */
  lemma LetterOfTurn(s: System, a: Action, ch: Choice)
    requires SystemInv(s) && CanAct(s, a)
    ensures var i := ClientInputs(s, a, ch);
      CanRun(s.client, i) && Requests(s.client, i) == Texts(s.signalled, LetterOf(s, a, ch))
  {
    hide Act, SystemInv, LetterOf, Waiting;
    if HandsOver(s, a) {
      HandOverLetter(s, ch);
    } else if ClientInputs(s, a, ch) != [] {
      OneInputLetter(s, a, ch, ClientInputs(s, a, ch)[0]);
    } else {
      NoLetter(s, a, ch);
    }
  }

  lemma NoLetter(s: System, a: Action, ch: Choice)
    requires SystemInv(s) && CanAct(s, a) && ClientInputs(s, a, ch) == []
    ensures CanRun(s.client, []) && Requests(s.client, []) == Texts(s.signalled, LetterOf(s, a, ch))
  {
    hide Act, SystemInv;
    ClientOfTurn(s, a, ch);
  }

  // ---------------------------------------------------------------- the letters of a run

  function AllLetters(s: System, run: seq<Turn>): seq<Letter>
    requires CanPlay(s, run)
    decreases |run|
  {
    if run == [] then []
    else
      LetterOf(s, run[0].action, run[0].choice) + AllLetters(Act(s, run[0].action, run[0].choice), run[1..])
  }

  lemma {:induction false} RequestsJoin(c: Client, a: seq<Input>, b: seq<Input>)
    requires CanRun(c, a) && CanRun(Run(c, a), b)
    ensures CanRun(c, a + b) && Requests(c, a + b) == Requests(c, a) + Requests(Run(c, a), b)
    decreases |a|
  {
    hide PeerClient.Step, Enabled, ServerAssignsId, Dialled;
    RunsJoin(c, a, b);
    if a == [] {
      assert a + b == b;
    } else {
      assert (a + b)[0] == a[0] && (a + b)[1..] == a[1..] + b;
      var t := PeerClient.Step(c, a[0].event, a[0].env);
      RequestsJoin(t, a[1..], b);
      Associates(Dialled(c, a[0].event, a[0].env), Requests(t, a[1..]), Requests(Run(t, a[1..]), b));
    }
  }

  /** Messages signalled later do not change what the letters so far say. */
  lemma TextsStay(now: seq<string>, later: seq<string>, letters: seq<Letter>)
    requires now <= later && forall l | l in letters :: l.Mail? ==> l.k < |now|
    ensures Texts(later, letters) == Texts(now, letters)
  {
    forall i | 0 <= i < |letters| ensures Text(later, letters[i]) == Text(now, letters[i]) {
      assert letters[i] in letters;
    }
  }

  lemma TextsConcat(signalled: seq<string>, a: seq<Letter>, b: seq<Letter>)
    ensures Texts(signalled, a + b) == Texts(signalled, a) + Texts(signalled, b)
  {
    hide Text;
  }

  lemma TurnSignals(s: System, a: Action, ch: Choice)
    requires SystemInv(s) && CanAct(s, a)
    ensures s.signalled <= Act(s, a, ch).signalled
    ensures forall l | l in LetterOf(s, a, ch) :: l.Mail? ==> l.k < |s.signalled|
  {
    hide Act, Inv, SessionInv, Waiting, FateOf;
    MailMoves(s, a, ch);
    if HandsOver(s, a) { OldestWaits(s); }
  }

  lemma {:induction false} LettersOfRun(s: System, run: seq<Turn>)
    requires SystemInv(s) && CanPlay(s, run)
    ensures CanRun(s.client, Inputs(s, run)) && s.signalled <= Play(s, run).signalled
    ensures Requests(s.client, Inputs(s, run)) == Texts(Play(s, run).signalled, AllLetters(s, run))
    decreases |run|
  {
    hide SystemInv, Act, CanAct, ClientInputs, LetterOf, PeerClient.Step, Enabled, ServerAssignsId, Texts;
    ClientOfRun(s, run);
    if run == [] {
      NoTexts(s.signalled);
    } else {
      var a, ch := run[0].action, run[0].choice;
      var t := Act(s, a, ch);
      ActKeeps(s, a, ch);
      TurnSignals(s, a, ch);
      ClientOfTurn(s, a, ch);
      LetterOfTurn(s, a, ch);
      LettersOfRun(t, run[1..]);
      var all := Play(s, run).signalled;
      TextsStay(s.signalled, all, LetterOf(s, a, ch));
      TextsConcat(all, LetterOf(s, a, ch), AllLetters(t, run[1..]));
      hide Run, CanRun, Requests;
      RequestsJoin(s.client, ClientInputs(s, a, ch), Inputs(t, run[1..]));
    }
  }

  lemma NoTexts(signalled: seq<string>)
    ensures Texts(signalled, []) == []
  {}

  // ---------------------------------------------------------------- letters and fates

  /** A message, by its number in the order of signalling, and the peer it goes to. */
  datatype Posting = Posting(message: nat, to: int)

  function Postings(letters: seq<Letter>): seq<Posting> {
    if letters == [] then []
    else (if letters[0].Mail? then [Posting(letters[0].k, letters[0].to)] else []) + Postings(letters[1..])
  }

  /** The messages that were given to a peer, in order. */
  function Given(fates: seq<Fate>): seq<Posting> {
    if fates == [] then []
    else
      var k := |fates| - 1;
      Given(fates[..k]) + if fates[k].GivenTo? then [Posting(k, fates[k].peer)] else []
  }

  lemma {:induction false} PostingsConcat(a: seq<Letter>, b: seq<Letter>)
    ensures Postings(a + b) == Postings(a) + Postings(b)
  {
    if a == [] {
      assert a + b == b;
    } else {
      assert (a + b)[0] == a[0] && (a + b)[1..] == a[1..] + b;
      PostingsConcat(a[1..], b);
      Associates(if a[0].Mail? then [Posting(a[0].k, a[0].to)] else [], Postings(a[1..]), Postings(b));
    }
  }

  lemma PostingsOfTurn(s: System, a: Action, ch: Choice)
    requires SystemInv(s) && CanAct(s, a) && Logged(s)
    ensures Given(Act(s, a, ch).fates) == Given(s.fates) + Postings(LetterOf(s, a, ch))
  {
    hide Act, CanAct, SystemInv, HandsOver;
    MailMoves(s, a, ch);
    SignalsDoNotHandOver(s, a);
    var t := Act(s, a, ch);
    if HandsOver(s, a) {
      assert t.fates[..|s.fates|] == s.fates;
    }
    assert Given(s.fates) + [] == Given(s.fates);
  }

  lemma {:induction false} PostingsOfRun(s: System, run: seq<Turn>)
    requires SystemInv(s) && CanPlay(s, run) && Logged(s)
    ensures Given(Play(s, run).fates) == Given(s.fates) + Postings(AllLetters(s, run))
    decreases |run|
  {
    hide SystemInv, Act, CanAct, LetterOf, Logged, Given;
    if run == [] {
      assert Given(s.fates) + [] == Given(s.fates);
    } else {
      var a, ch := run[0].action, run[0].choice;
      var t := Act(s, a, ch);
      ActKeeps(s, a, ch);
      TurnIsLogged(s, a, ch);
      PostingsOfTurn(s, a, ch);
      PostingsOfRun(t, run[1..]);
      PostingsConcat(LetterOf(s, a, ch), AllLetters(t, run[1..]));
      Associates(Given(s.fates), Postings(LetterOf(s, a, ch)), Postings(AllLetters(t, run[1..])));
    }
  }

  /**
    After every run: what went out on the control socket are letters of the run, unaltered and in their
    order, some perhaps missing. The messages among the letters are exactly those given to a peer, in the
    order they were signalled, each to that peer; the others are goodbyes and requests to sign in or out.
   */
  lemma TheServerGetsTheMail(run: seq<Turn>)
    requires CanPlay(START, run)
    ensures var s, letters := Play(START, run), AllLetters(START, run);
      && (forall k :: 0 <= k < |s.client.sent| ==>
            && 1 <= s.client.sent[k].ticket <= |letters|
            && s.client.sent[k].text == Text(s.signalled, letters[s.client.sent[k].ticket - 1]))
      && (forall j, k :: 0 <= j < k < |s.client.sent| ==> s.client.sent[j].ticket < s.client.sent[k].ticket)
      && Postings(letters) == Given(s.fates)
  {
    hide SystemInv, Logged, Act, CanAct, LetterOf, Text, PeerClient.Step, Enabled, ServerAssignsId;
    hide Play, CanPlay, Run, CanRun, Inputs, Requests, AllLetters, Postings;
    NothingPosted();
    PostingsOfRun(START, run);
    ClientRunsAlone(run);
    LettersOfRun(START, run);
    RequestsGoOutInOrder(Inputs(START, run));
    assert [] + Postings(AllLetters(START, run)) == Postings(AllLetters(START, run));
  }

  lemma NothingPosted()
    ensures SystemInv(START) && Logged(START) && Given(START.fates) == [] && START.client == PeerClient.INIT
  {
    assert CanPlay(START, []);
    Reachable([]);
  }
}
