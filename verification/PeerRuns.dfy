/**
  The signalling client over whole runs, seen from outside: the observer hears exactly the news that
  arrived, the server gets exactly the requests that were made, and when a connected client goes deaf.
 */
module PeerRuns {
  import opened Text
  import opened HttpFraming
  import opened PeerEntries
  import opened PeerClient
  import opened PeerClientProperties
  import opened PeerTraffic

  // ---------------------------------------------------------------- one notification, one call

  /** The read completes a response, in good order, under the id and with the body. */
  predicate Brings(c: Client, data: string, id: int, body: string) {
    var d := c.notificationData + data;
    Complete(d) && HeaderEnd(d) != NPOS && Status(d) == 200 && PragmaId(d) == id && BodyOf(d) == body
  }

  /** A notification printed for a member is announced under its id and name, a departure under its id. */
  lemma NoticeIsAnnounced(c: Client, data: string, env: Env, e: Entry, tail: string)
    requires Inv(c) && c.hanging == Open && WellNamed(e) && (tail != [] ==> !IsDigit(tail[0]))
    requires Brings(c, data, c.myId, Print(e) + tail)
    ensures HangingReads(c, data, env).calls
         == c.calls + [if e.connected then PeerConnected(e.id, e.name) else PeerDisconnected(e.id)]
  {
    hide HangingReads, Complete, Status, PragmaId, HeaderEnd, BodyOf, ParseEntry, Print;
    CallsOfEvent(c, HangingRead(data), env);
    ParseEntryOfPrint(e, tail);
  }

  /** Any other message is passed on under its sender's id, as a departure if it says BYE. */
  lemma MessageIsPassedOn(c: Client, data: string, env: Env, id: int, text: string)
    requires Inv(c) && c.hanging == Open && Brings(c, data, id, text) && id != c.myId
    ensures HangingReads(c, data, env).calls
         == c.calls + [if text == "BYE" then PeerDisconnected(id) else MessageFromPeer(id, text)]
  {
    hide HangingReads, Complete, Status, PragmaId, HeaderEnd, BodyOf;
    CallsOfEvent(c, HangingRead(data), env);
  }

  // ---------------------------------------------------------------- what the observer hears over a run

  function CallsIn(c: Client, run: seq<Input>): seq<Callback>
    requires CanRun(c, run)
    decreases |run|
  {
    if run == [] then []
    else Calls(c, run[0].event, run[0].env) + CallsIn(Step(c, run[0].event, run[0].env), run[1..])
  }

  /** The observer is told of every event, in order, and of nothing else. */
  lemma {:induction false} CallsOfRun(c: Client, run: seq<Input>)
    requires Inv(c) && CanRun(c, run)
    ensures Run(c, run).calls == c.calls + CallsIn(c, run)
    decreases |run|
  {
    hide Inv, Step, Calls, Enabled, ServerAssignsId;
    if run != [] {
      var e, env := run[0].event, run[0].env;
      StepKeeps(c, e, env);
      CallsOfEvent(c, e, env);
      CallsOfRun(Step(c, e, env), run[1..]);
      Associates(c.calls, Calls(c, e, env), CallsIn(Step(c, e, env), run[1..]));
    }
  }

  /** The news that arrived, in order. */
  function NewsDuring(c: Client, run: seq<Input>): seq<News>
    requires StaysConnected(c, run)
    decreases |run|
  {
    if run == [] then []
    else [NewsIn(c, run[0].event)] + NewsDuring(Step(c, run[0].event, run[0].env), run[1..])
  }

  function ToldAll(news: seq<News>): seq<Callback> {
    if news == [] then [] else Told(news[0]) + ToldAll(news[1..])
  }

  /** The calls of a kind, in order. */
  function Only(calls: seq<Callback>, kind: Callback -> bool): seq<Callback> {
    if calls == [] then []
    else (if kind(calls[0]) then [calls[0]] else []) + Only(calls[1..], kind)
  }

  lemma {:induction false} OnlyConcat(a: seq<Callback>, b: seq<Callback>, kind: Callback -> bool)
    ensures Only(a + b, kind) == Only(a, kind) + Only(b, kind)
  {
    if a == [] {
      assert a + b == b;
    } else {
      assert (a + b)[0] == a[0] && (a + b)[1..] == a[1..] + b;
      OnlyConcat(a[1..], b, kind);
      Associates(if kind(a[0]) then [a[0]] else [], Only(a[1..], kind), Only(b, kind));
    }
  }

  lemma PeerCallsOfEvent(c: Client, e: Event, env: Env)
    requires Inv(c) && c.state == CONNECTED && Enabled(c, e) && Step(c, e, env).state == CONNECTED
    ensures Only(Calls(c, e, env), AboutPeers) == Told(NewsIn(c, e))
  {
    hide Step, Complete, ShouldClose, Status, PragmaId, HeaderEnd, NewsOf, SigningOut, AfterSignOut, Listed;
    StateOfEvent(c, e, env);
  }

  /**
    While the client stays connected, what the observer hears about peers is the news that arrived on
    the hanging GET, in order and each once.
   */
  lemma {:induction false} ObserverHearsTheNews(c: Client, run: seq<Input>)
    requires Inv(c) && StaysConnected(c, run)
    ensures CanRun(c, run) && Only(CallsIn(c, run), AboutPeers) == ToldAll(NewsDuring(c, run))
    ensures Run(c, run).calls == c.calls + CallsIn(c, run)
    decreases |run|
  {
    hide Inv, Step, Calls, NewsIn, Told, Enabled, ServerAssignsId;
    if run != [] {
      var e, env := run[0].event, run[0].env;
      var t := Step(c, e, env);
      StepKeeps(c, e, env);
      PeerCallsOfEvent(c, e, env);
      ObserverHearsTheNews(t, run[1..]);
      OnlyConcat(Calls(c, e, env), CallsIn(t, run[1..]), AboutPeers);
      var news := NewsDuring(c, run);
      assert news[0] == NewsIn(c, e) && news[1..] == NewsDuring(t, run[1..]);
      CallsOfRun(c, run);
    }
  }

  function Notified(notices: seq<Entry>): seq<Callback> {
    seq(|notices|, k requires 0 <= k < |notices| =>
      if notices[k].connected then PeerConnected(notices[k].id, notices[k].name) else PeerDisconnected(notices[k].id))
  }

  predicate AboutMembers(call: Callback) {
    call.PeerConnected? || call.PeerDisconnected?
  }

  predicate Goodbye(news: News) {
    news.Words? && news.text == "BYE"
  }

  lemma MemberCallsOfEvent(c: Client, e: Event, env: Env)
    requires Inv(c) && c.state == CONNECTED && Enabled(c, e) && Step(c, e, env).state == CONNECTED
    requires !Goodbye(NewsIn(c, e))
    ensures Only(Calls(c, e, env), AboutMembers) == Notified(NoticeIn(c, e))
  {
    hide Step, Complete, ShouldClose, Status, PragmaId, HeaderEnd, BodyOf, ParseEntry, SigningOut, AfterSignOut, Listed;
    StateOfEvent(c, e, env);
    if e.HangingRead? { CompleteHasHeaders(c.notificationData + e.data); }
  }

  /**
    While the client stays connected and no peer says goodbye, the joins and departures the observer is
    told are the notifications received, in order: the very ones by which the peer list changes.
   */
  lemma {:induction false} MemberCallsAreTheNotices(c: Client, run: seq<Input>)
    requires Inv(c) && StaysConnected(c, run) && forall news | news in NewsDuring(c, run) :: !Goodbye(news)
    ensures CanRun(c, run) && Run(c, run).calls == c.calls + CallsIn(c, run)
    ensures Only(CallsIn(c, run), AboutMembers) == Notified(NoticesIn(c, run))
    ensures Run(c, run).peers == Notices(c.peers, NoticesIn(c, run))
    decreases |run|
  {
    hide Inv, Step, Calls, NewsIn, NoticeIn, Goodbye, Enabled, ServerAssignsId, Notices;
    RunPeers(c, run);
    CallsOfRun(c, run);
    if run != [] {
      var e, env := run[0].event, run[0].env;
      var t := Step(c, e, env);
      StepKeeps(c, e, env);
      var news := NewsDuring(c, run);
      assert news[0] == NewsIn(c, e) && news[0] in news;
      forall n | n in NewsDuring(t, run[1..]) ensures !Goodbye(n) { assert n in news; }
      MemberCallsOfEvent(c, e, env);
      MemberCallsAreTheNotices(t, run[1..]);
      OnlyConcat(Calls(c, e, env), CallsIn(t, run[1..]), AboutMembers);
    }
  }

  // ---------------------------------------------------------------- what the server gets over a run

  /** The requests made, in order: the k-th is made under ticket k + 1. */
  function Requests(c: Client, run: seq<Input>): seq<string>
    requires CanRun(c, run)
    decreases |run|
  {
    if run == [] then []
    else Dialled(c, run[0].event, run[0].env) + Requests(Step(c, run[0].event, run[0].env), run[1..])
  }

  /** Each of these is the request made under its ticket, among the first `n`. */
  predicate FromMade(sent: seq<Request>, made: seq<string>, n: nat) {
    && n <= |made|
    && forall k :: 0 <= k < |sent| ==> 1 <= sent[k].ticket <= n && sent[k].text == made[sent[k].ticket - 1]
  }

  predicate Increasing(sent: seq<Request>) {
    forall j, k :: 0 <= j < k < |sent| ==> sent[j].ticket < sent[k].ticket
  }

  /** What was sent are requests made, in the order they were made, and the one being connected for is the last. */
  predicate SentOf(c: Client, made: seq<string>) {
    && |made| == c.ticket && Increasing(c.sent)
    && if c.control == Connecting then
         made != [] && c.staged == made[|made| - 1] && FromMade(c.sent, made, |made| - 1)
       else FromMade(c.sent, made, |made|)
  }

  lemma FromMore(sent: seq<Request>, made: seq<string>, m: nat, out: seq<string>, n: nat)
    requires FromMade(sent, made, m) && m <= n <= |made| + |out|
    ensures FromMade(sent, made + out, n)
  {}

  lemma SendsNext(sent: seq<Request>, made: seq<string>)
    requires made != [] && FromMade(sent, made, |made| - 1) && Increasing(sent)
    ensures var all := sent + [Request(|made|, made[|made| - 1])]; FromMade(all, made, |made|) && Increasing(all)
  {}

  lemma SentOfEvent(c: Client, e: Event, env: Env, made: seq<string>)
    requires Inv(c) && Enabled(c, e) && SentOf(c, made)
    ensures SentOf(Step(c, e, env), made + Dialled(c, e, env))
  {
    hide Step, Dialled, Inv, FromMade, Increasing;
    RequestOfEvent(c, e, env);
    var t, out := Step(c, e, env), Dialled(c, e, env);
    var m := if c.control == Connecting then |made| - 1 else |made|;
    if e.ControlConnected? {
      assert made + out == made;
      SendsNext(c.sent, made);
    } else {
      assert out == [] ==> made + out == made;
      FromMore(c.sent, made, m, out, if t.control == Connecting then |made + out| - 1 else |made + out|);
    }
  }

  lemma {:induction false} SentOfRun(c: Client, run: seq<Input>, made: seq<string>)
    requires Inv(c) && CanRun(c, run) && SentOf(c, made)
    ensures SentOf(Run(c, run), made + Requests(c, run))
    decreases |run|
  {
    hide Inv, Step, Dialled, Enabled, ServerAssignsId, SentOf;
    if run == [] {
      assert made + [] == made;
    } else {
      var e, env := run[0].event, run[0].env;
      StepKeeps(c, e, env);
      SentOfEvent(c, e, env, made);
      SentOfRun(Step(c, e, env), run[1..], made + Dialled(c, e, env));
      Associates(made, Dialled(c, e, env), Requests(Step(c, e, env), run[1..]));
    }
  }

  lemma NothingSent()
    ensures Inv(INIT) && SentOf(INIT, [])
  {}

  lemma SentOfMeans(c: Client, made: seq<string>)
    requires SentOf(c, made)
    ensures forall k :: 0 <= k < |c.sent| ==>
      1 <= c.sent[k].ticket <= |made| && c.sent[k].text == made[c.sent[k].ticket - 1]
    ensures forall j, k :: 0 <= j < k < |c.sent| ==> c.sent[j].ticket < c.sent[k].ticket
    ensures c.control == Connecting ==> made != [] && c.staged == made[|made| - 1]
  {}

  /**
    From the start of the client: the server gets requests the client made, unaltered and in the order it
    made them - each once, some perhaps never - and a socket that is connecting carries the last one made.
   */
  lemma RequestsGoOutInOrder(run: seq<Input>)
    requires CanRun(INIT, run)
    ensures var c, made := Run(INIT, run), Requests(INIT, run);
      && (forall k :: 0 <= k < |c.sent| ==>
            1 <= c.sent[k].ticket <= |made| && c.sent[k].text == made[c.sent[k].ticket - 1])
      && (forall j, k :: 0 <= j < k < |c.sent| ==> c.sent[j].ticket < c.sent[k].ticket)
      && (c.control == Connecting ==> made != [] && c.staged == made[|made| - 1])
  {
    hide Inv, Run, CanRun, Requests, Step, SentOf;
    NothingSent();
    SentOfRun(INIT, run, []);
    assert [] + Requests(INIT, run) == Requests(INIT, run);
    SentOfMeans(Run(INIT, run), Requests(INIT, run));
  }

  // ---------------------------------------------------------------- listening

  /** A connected client has its hanging GET in use. */
  predicate Listens(c: Client) {
    c.state == CONNECTED ==> c.hanging != Closed
  }

  /** The event needs a new hanging GET, and no attempt to connect it succeeds. */
  predicate StopsListening(c: Client, e: Event, env: Env) {
    match e
    case HangingClosed(refused) => !refused && !env.hangingConnects
    case ControlRead(_) => c.state != CONNECTED && NextState(c, e, env) == CONNECTED && !env.hangingConnects
    case HangingRead(data) =>
      && ShouldClose(c.notificationData + data) && NextState(c, e, env) == CONNECTED
      && !env.hangingConnects && !env.hangingReconnects
    case _ => false
  }

  lemma ListensIff(c: Client, e: Event, env: Env)
    requires Inv(c) && Listens(c) && Enabled(c, e)
    ensures Listens(Step(c, e, env)) <==> !StopsListening(c, e, env)
  {
    SocketsOfEvent(c, e, env);
    StateOfEvent(c, e, env);
    hide Step, Complete, ShouldClose, NewsOf, Status, SigningOut, RepliedTo;
  }

  predicate AlwaysListens(c: Client, run: seq<Input>)
    requires CanRun(c, run)
    decreases |run|
  {
    Listens(c) && (run != [] ==> AlwaysListens(Step(c, run[0].event, run[0].env), run[1..]))
  }

  predicate EverStopsListening(c: Client, run: seq<Input>)
    requires CanRun(c, run)
    decreases |run|
  {
    && run != []
    && (|| StopsListening(c, run[0].event, run[0].env)
        || EverStopsListening(Step(c, run[0].event, run[0].env), run[1..]))
  }

  lemma {:induction false} ListeningRun(c: Client, run: seq<Input>)
    requires Inv(c) && Listens(c) && CanRun(c, run)
    ensures AlwaysListens(c, run) <==> !EverStopsListening(c, run)
    decreases |run|
  {
    hide Inv, Listens, StopsListening, Step, ServerAssignsId, Enabled;
    if run != [] {
      var e, env := run[0].event, run[0].env;
      StepKeeps(c, e, env);
      ListensIff(c, e, env);
      if Listens(Step(c, e, env)) { ListeningRun(Step(c, e, env), run[1..]); }
    }
  }

  /**
    In every state of a run a connected client has its hanging GET in use, if and only if every time a new
    one was needed - after the sign-in, a close, a reply that closes - an attempt to connect it succeeded.
   */
  lemma ConnectedClientListensIff(run: seq<Input>)
    requires CanRun(INIT, run)
    ensures AlwaysListens(INIT, run) <==> !EverStopsListening(INIT, run)
  {
    ListeningRun(INIT, run);
  }

  /** A connected client whose hanging GET is closed is deaf while it stays connected: it never tries again. */
  lemma {:induction false} DeafWhileConnected(c: Client, run: seq<Input>)
    requires Inv(c) && StaysConnected(c, run) && c.hanging == Closed
    ensures CanRun(c, run) && Run(c, run).hanging == Closed && Run(c, run).peers == c.peers
    ensures Only(CallsIn(c, run), AboutPeers) == []
    decreases |run|
  {
    hide Inv, Calls, ServerAssignsId, Step, NextPeers;
    if run != [] {
      var e, env := run[0].event, run[0].env;
      var t := Step(c, e, env);
      StepKeeps(c, e, env);
      SocketsOfEvent(c, e, env);
      StateOfEvent(c, e, env);
      SamePeersWithoutNews(c, e, env);
      PeerCallsOfEvent(c, e, env);
      DeafWhileConnected(t, run[1..]);
      OnlyConcat(Calls(c, e, env), CallsIn(t, run[1..]), AboutPeers);
    }
  }

  lemma SamePeersWithoutNews(c: Client, e: Event, env: Env)
    requires Inv(c) && c.state == CONNECTED && NextState(c, e, env) == CONNECTED && !e.HangingRead?
    ensures NextPeers(c, e, env) == c.peers
  {
    hide NextState;
  }
}
