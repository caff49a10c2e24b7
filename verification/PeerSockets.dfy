/**
  What becomes of a staged request and of a half-received reply when the sockets come and go: exactly when
  a request is sent, and exactly when a new connection starts with text of the old one in its buffer.
 */
module PeerSockets {
  import opened Text
  import opened HttpFraming
  import opened PeerEntries
  import opened PeerClient

  // ---------------------------------------------------------------- the staged request

  /** Requests go out under the number of their connect, and the one being connected has not gone out. */
  predicate Numbered(c: Client) {
    forall r | r in c.sent :: r.ticket <= c.ticket && (c.control == Connecting ==> r.ticket < c.ticket)
  }

  /** Nothing was sent, and a connecting socket is connecting for the same request or for a later one. */
  predicate Unsent(c: Client, t: Client) {
    && t.sent == c.sent
    && (|| t.ticket > c.ticket
        || (t.ticket == c.ticket && (t.control == Connecting ==> c.control == Connecting && t.staged == c.staged)))
  }

  /** What a whole reply does to the sockets and buffers. */
  lemma ReplySockets(c: Client, d: string, env: Env)
    requires HeaderEnd(d) != NPOS && ContentLength(d).Some?
    ensures var u := ControlReply(c, d, env);
      && u.controlData == c.controlData && u.notificationData == c.notificationData && Unsent(c, u)
      && (u.control == c.control || u.control != Open) && (u.hanging == c.hanging || u.hanging == Closed)
      && (Status(d) != 200 ==> u.control == Closed && u.hanging == Closed)
      && (Status(d) == 200 && c.state == CONNECTED ==> u.hanging == c.hanging)
      && (u.state == SIGNING_IN ==> c.state == SIGNING_IN)
  {
    SignOutSockets(c, env);
    hide HeaderEnd, ContentLength, Status, PragmaId, BodyEntries, Enter, Announce, SignOutStep;
  }

  lemma ControlReadUnsent(c: Client, data: string, env: Env)
    requires c.control == Open
    ensures Unsent(c, ControlReads(c, data, env))
  {
    hide Complete, ShouldClose, HeaderEnd, ContentLength, Status, ControlReply;
    var d := c.controlData + data;
    CompleteHasHeaders(d);
    if Complete(d) {
      var t := c.(controlData := d);
      ReplySockets(if ShouldClose(d) then ControlCloses(t, false, 0) else t, d, env);
    }
  }

  /** What a whole notification does to the sockets and buffers. */
  lemma NotificationSockets(c: Client, d: string, env: Env)
    requires HeaderEnd(d) != NPOS && HeaderEnd(d) + 4 <= |d|
    ensures var u := Notification(c, d, env);
      && u.controlData == c.controlData && u.notificationData == c.notificationData && Unsent(c, u)
      && if Status(d) != 200 then u.control == Closed && u.hanging == Closed && u.ticket == c.ticket
         else
           && (c.control != Closed ==> u.control == c.control && u.ticket == c.ticket && u.staged == c.staged)
           && (u.hanging == c.hanging || u.hanging == Closed) && (c.control == Closed ==> u.control != Open)
  {
    SignOutSockets(Notify(c, MessageFromPeer(PragmaId(d), BodyOf(d))), env);
    hide Status, PragmaId, HeaderEnd, ParseEntry, BodyOf, SignOutStep, Notice;
  }

  lemma SignOutSockets(c: Client, env: Env)
    ensures var u := SignOutStep(c, env);
      && u.controlData == c.controlData && u.notificationData == c.notificationData && Unsent(c, u)
      && (c.control != Closed ==> u.control == c.control && u.ticket == c.ticket && u.staged == c.staged)
      && (u.hanging == c.hanging || u.hanging == Closed) && (c.control == Closed ==> u.control != Open)
    ensures SignOutStep(c, env).state != SIGNING_IN
  {
    hide SignOutRequest;
  }

  lemma HangingReadUnsent(c: Client, data: string, env: Env)
    ensures Unsent(c, HangingReads(c, data, env))
  {
    hide Complete, ShouldClose, HeaderEnd, Status, Notification;
    var d := c.notificationData + data;
    CompleteHasHeaders(d);
    if Complete(d) {
      var t := c.(notificationData := d);
      NotificationSockets(if ShouldClose(d) then HangingCloses(t, false, env) else t, d, env);
    }
  }

  lemma StepUnsent(c: Client, e: Event, env: Env)
    requires Enabled(c, e) && !e.ControlConnected?
    ensures Unsent(c, Step(c, e, env))
  {
    match e
    case ControlRead(data) => ControlReadUnsent(c, data, env);
    case HangingRead(data) => HangingReadUnsent(c, data, env);
    case SignOut => SignOutSockets(c, env);
    case _ => hide ControlReads, HangingReads, SignInRequest, MessageRequest;
  }

  lemma StepNumbered(c: Client, e: Event, env: Env)
    requires Numbered(c) && Enabled(c, e)
    ensures Numbered(Step(c, e, env))
  {
    if !e.ControlConnected? {
      StepUnsent(c, e, env);
      hide Step, Enabled;
    }
  }

  lemma {:induction false} RunNumbered(c: Client, run: seq<Input>)
    requires Numbered(c) && CanRun(c, run)
    ensures Numbered(Run(c, run))
    decreases |run|
  {
    hide Step, Enabled, Numbered, ServerAssignsId;
    if run != [] {
      StepNumbered(c, run[0].event, run[0].env);
      RunNumbered(Step(c, run[0].event, run[0].env), run[1..]);
    }
  }

  /** The event closes the control socket, connecting or connected, or replaces it by a new one. */
  predicate EndsControl(c: Client, e: Event) {
    match e
    case ControlClosed(_, _) => true
    case Retry => true
    case HangingClosed(refused) => refused
    case HangingRead(data) => Complete(c.notificationData + data) && Status(c.notificationData + data) != 200
    case _ => false
  }

  /** The control socket connects before anything ends it. SignOut does not. */
  predicate GoesOut(c: Client, run: seq<Input>)
    requires CanRun(c, run)
    decreases |run|
  {
    && run != []
    && (|| run[0].event.ControlConnected?
        || (!EndsControl(c, run[0].event) && GoesOut(Step(c, run[0].event, run[0].env), run[1..])))
  }

  lemma HangingReadWaits(c: Client, data: string, env: Env)
    requires Inv(c) && c.control == Connecting && c.hanging == Open
    ensures var t := HangingReads(c, data, env);
      if EndsControl(c, HangingRead(data)) then t.control == Closed
      else t.control == Connecting && t.ticket == c.ticket && t.staged == c.staged
  {
    hide Complete, ShouldClose, HeaderEnd, Status, Notification;
    var d := c.notificationData + data;
    CompleteHasHeaders(d);
    if Complete(d) {
      var t := c.(notificationData := d);
      NotificationSockets(if ShouldClose(d) then HangingCloses(t, false, env) else t, d, env);
    }
  }

  /** A connecting socket goes on connecting for the same request, unless it is ended. */
  lemma StepWaits(c: Client, e: Event, env: Env)
    requires Inv(c) && c.control == Connecting && Enabled(c, e) && !e.ControlConnected?
    ensures var t := Step(c, e, env);
      if EndsControl(c, e) then t.control != Connecting || t.ticket > c.ticket
      else t.control == Connecting && t.ticket == c.ticket && t.staged == c.staged
  {
    match e
    case HangingRead(data) => HangingReadWaits(c, data, env);
    case _ => hide ControlReads, HangingReads, SignInRequest, SignOutRequest, MessageRequest, Complete, Status;
  }

  predicate WasSent(c: Client, ticket: nat) {
    exists r :: r in c.sent && r.ticket == ticket
  }

  /** A request whose connect is over without it can never be sent. */
  lemma {:induction false} NeverSent(c: Client, run: seq<Input>, ticket: nat)
    requires CanRun(c, run) && ticket <= c.ticket && !WasSent(c, ticket)
    requires ticket == c.ticket ==> c.control != Connecting
    ensures !WasSent(Run(c, run), ticket)
    decreases |run|
  {
    hide Step, ServerAssignsId;
    if run != [] {
      var e, env := run[0].event, run[0].env;
      var t := Step(c, e, env);
      if e.ControlConnected? { ConnectedSends(c, env); } else { StepUnsent(c, e, env); }
      NeverSent(t, run[1..], ticket);
    }
  }

  lemma ConnectedSends(c: Client, env: Env)
    requires Enabled(c, ControlConnected)
    ensures var t := Step(c, ControlConnected, env);
      && t.sent == c.sent + [Request(c.ticket, c.staged)] && t.ticket == c.ticket && t.control == Open
      && forall k: nat :: WasSent(t, k) <==> WasSent(c, k) || k == c.ticket
  {
    var t := Step(c, ControlConnected, env);
    forall k: nat ensures WasSent(t, k) <==> WasSent(c, k) || k == c.ticket {
      assert Request(c.ticket, c.staged) in t.sent;
    }
  }

  /** Sent requests stay in the log. */
  lemma {:induction false} SentStays(c: Client, run: seq<Input>, r: Request)
    requires CanRun(c, run) && r in c.sent
    ensures r in Run(c, run).sent
    decreases |run|
  {
    hide Step, Enabled, ServerAssignsId;
    if run != [] {
      var e, env := run[0].event, run[0].env;
      SentGrows(c, e, env);
      SentStays(Step(c, e, env), run[1..], r);
    }
  }

  lemma SentGrows(c: Client, e: Event, env: Env)
    requires Enabled(c, e)
    ensures c.sent <= Step(c, e, env).sent
  {
    if !e.ControlConnected? {
      StepUnsent(c, e, env);
      hide Step, Enabled;
    }
  }

  lemma {:induction false} GoesOutIff(c: Client, run: seq<Input>)
    requires Inv(c) && c.control == Connecting && !WasSent(c, c.ticket) && CanRun(c, run)
    ensures WasSent(Run(c, run), c.ticket) <==> GoesOut(c, run)
    ensures GoesOut(c, run) ==> Request(c.ticket, c.staged) in Run(c, run).sent
    decreases |run|
  {
    if run != [] {
      var e, env := run[0].event, run[0].env;
      var t := Step(c, e, env);
      StepKeeps(c, e, env);
      if e.ControlConnected? {
        ConnectedSends(c, env);
        SentStays(t, run[1..], Request(c.ticket, c.staged));
      } else {
        StepUnsent(c, e, env);
        StepWaits(c, e, env);
        hide Step, Enabled, ServerAssignsId, Inv, EndsControl;
        if EndsControl(c, e) { NeverSent(t, run[1..], c.ticket); } else { GoesOutIff(t, run[1..]); }
      }
    }
  }

  /**
    A message that SendToPeer accepts, in any reachable state, is sent in what follows if and only if the
    control socket connects before it is closed, refused or replaced, the hanging GET is refused or a
    notification fails. A refusal loses it without a word: the reconnect timer stages a sign-in instead.
   */
  lemma AcceptedMessageGoesOutIff(before: seq<Input>, peer: int, message: string, env: Env, after: seq<Input>)
    requires CanRun(INIT, before) && Enabled(Run(INIT, before), SendMessage(peer, message))
    requires SendSucceeds(Run(INIT, before), peer, env)
    requires CanRun(SendStep(Run(INIT, before), peer, message, env), after)
    ensures var c := Run(INIT, before); var t := SendStep(c, peer, message, env);
      && (WasSent(Run(t, after), t.ticket) <==> GoesOut(t, after))
      && (GoesOut(t, after) ==> Request(t.ticket, MessageRequest(c.myId, peer, message)) in Run(t, after).sent)
  {
    RunKeeps(INIT, before);
    RunNumbered(INIT, before);
    var c := Run(INIT, before);
    StepKeeps(c, SendMessage(peer, message), env);
    StepNumbered(c, SendMessage(peer, message), env);
    hide MessageRequest, Run, CanRun, Inv;
    GoesOutIff(SendStep(c, peer, message, env), after);
  }

  // ---------------------------------------------------------------- the receive buffers

  /** A socket that is not open has no half-received reply waiting for its next connection. */
  predicate Clean(c: Client) {
    && (c.control != Open ==> c.controlData == "")
    && (c.hanging != Open ==> c.notificationData == "")
  }

  /** The event ends the hanging GET, other than by completing the reply in its buffer. */
  predicate EndsHanging(c: Client, e: Event, env: Env) {
    match e
    case HangingClosed(_) => true
    case Retry => true
    case SignOut => true
    case SendMessage(peer, _) => c.state == CONNECTED && c.myId != -1 && peer != -1 && !env.controlConnects
    case ControlRead(data) => Complete(c.controlData + data) && Status(c.controlData + data) != 200
    case _ => false
  }

  /** A connection ends with part of a reply received. */
  predicate CutsOff(c: Client, e: Event, env: Env) {
    || (c.control == Open && c.controlData != "" && EndsControl(c, e))
    || (c.hanging == Open && c.notificationData != "" && EndsHanging(c, e, env))
  }

  lemma ControlReadClean(c: Client, data: string, env: Env)
    requires Inv(c) && Clean(c) && c.control == Open
    ensures Clean(ControlReads(c, data, env)) <==> !CutsOff(c, ControlRead(data), env)
  {
    hide Complete, ShouldClose, HeaderEnd, ContentLength, Status, ControlReply;
    var d := c.controlData + data;
    CompleteHasHeaders(d);
    if Complete(d) {
      var t := c.(controlData := d);
      ReplySockets(if ShouldClose(d) then ControlCloses(t, false, 0) else t, d, env);
    }
  }

  lemma HangingReadClean(c: Client, data: string, env: Env)
    requires Inv(c) && Clean(c) && c.hanging == Open
    ensures Clean(HangingReads(c, data, env)) <==> !CutsOff(c, HangingRead(data), env)
  {
    hide Complete, ShouldClose, HeaderEnd, Status, Notification;
    var d := c.notificationData + data;
    CompleteHasHeaders(d);
    if Complete(d) {
      var t := c.(notificationData := d);
      NotificationSockets(if ShouldClose(d) then HangingCloses(t, false, env) else t, d, env);
    }
  }

  lemma CleanIff(c: Client, e: Event, env: Env)
    requires Inv(c) && Clean(c) && Enabled(c, e)
    ensures Clean(Step(c, e, env)) <==> !CutsOff(c, e, env)
  {
    match e
    case ControlRead(data) => ControlReadClean(c, data, env);
    case HangingRead(data) => HangingReadClean(c, data, env);
    case _ => hide ControlReads, HangingReads, SignInRequest, SignOutRequest, MessageRequest, Complete, Status;
  }

  predicate AlwaysClean(c: Client, run: seq<Input>)
    requires CanRun(c, run)
    decreases |run|
  {
    Clean(c) && (run != [] ==> AlwaysClean(Step(c, run[0].event, run[0].env), run[1..]))
  }

  predicate EverCutsOff(c: Client, run: seq<Input>)
    requires CanRun(c, run)
    decreases |run|
  {
    && run != []
    && (|| CutsOff(c, run[0].event, run[0].env)
        || EverCutsOff(Step(c, run[0].event, run[0].env), run[1..]))
  }

  lemma {:induction false} CleanRun(c: Client, run: seq<Input>)
    requires Inv(c) && Clean(c) && CanRun(c, run)
    ensures AlwaysClean(c, run) <==> !EverCutsOff(c, run)
    decreases |run|
  {
    hide Inv, Clean, CutsOff, Step, ServerAssignsId;
    if run != [] {
      var e, env := run[0].event, run[0].env;
      StepKeeps(c, e, env);
      CleanIff(c, e, env);
      if Clean(Step(c, e, env)) { CleanRun(Step(c, e, env), run[1..]); }
    }
  }

  /**
    The receive buffer of a socket is empty whenever it is not open, and so when its next connection
    opens, in every state of a run, if and only if no connection of the run ends half-way through a reply.
    Nothing clears the buffer then, and the rest of the old reply is taken for the start of the next.
   */
  lemma BuffersStartEmptyIff(run: seq<Input>)
    requires CanRun(INIT, run)
    ensures AlwaysClean(INIT, run) <==> !EverCutsOff(INIT, run)
  {
    CleanRun(INIT, run);
  }
}
