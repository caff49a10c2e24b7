# Verified models of the WebRTC base library and the signalling client

This project models the parts of the repository whose behaviour is hardest to see by reading one
function, and proves what they promise over every input, every run or every interleaving. Each
imperative component comes in two layers: a machine (a value, a step function, runs of any length) about
which the theorems are proved, and an object whose methods follow the C++ bodies and are proved to
perform exactly those steps.

- **The re-entrant callback list** (`CallbackList*.dfy`). `callback_list.h` lets callbacks add, cancel
  and notify while the list is being traversed. Actions are what running user code can do; a run is any
  sequence of them, so nested notifications and every interleaving are covered. Node identities make
  dangling iterators expressible. An ideal list that erases cancelled callbacks at once is the
  independent definition it is compared with.
- **The signalling client** (`Text`, `HttpFraming`, `PeerEntries`, `PeerRequests`, `PeerClient*`). The
  sign-in, long poll and sign-out machine over two sockets, the incremental HTTP framer, the peer-list
  parser and the requests of `peer_connection_client.cc`, and what becomes of requests and half replies as
  connections come and go (`PeerSockets`). Sockets and the server are events in any order; what the environment
  decides inside one event is an argument of the step. `PeerTraffic` and `PeerRuns` describe the same client
  from outside, field by field instead of method by method: what arrived, what the observer was told of it,
  which requests went out.
- **The conductor** (`Conductor*`). `conductor.cc` with its client and the queue of the UI thread:
  one session at a time, outgoing messages in order, and the wake-ups that keep them moving.
  `ConductorTraffic`, `ConductorHistory` and `ConductorLetters` describe it from outside: which call is on
  and why, what the client inside is asked to do, and which messages reach the server. Concrete runs from
  the start (`PeerScenarios`, `ConductorScenarios`) show where promises fail.
- **Lazy creation** (`LazyPointer`). `lazy_instance_helpers.h` run by any number of threads over one
  atomic word, one atomic step at a time.
- **Ownership** (`ScopedRefptr*`, `CancelableCallback`). Reference counts under every sequence of
  `scoped_refptr` operations, and forwarders of a cancelable callback under every sequence of resets,
  cancellations and runs.
- **Words and bits** (`SendTime`, `BigEndian`, `Bits`). Unwrapping of the 24-bit send time, the
  big-endian codec for every width, and the mask, scan and logarithm formulas against powers of two,
  multiples and counts of zero bits.

`dafny verify dfyconfig.toml` checks everything.

## What the code does not promise

Where a property that the documentation or a check suggests does not hold of the code, the code is kept
as it is and the exact condition is proved.

- A response whose `Content-Length` value is blank is framed wrongly: `atoi` skips the blank line and
  reads a length out of the body. Framing is exact if and only if the body is empty or the value is not
  blank (`FramingIsExactIff`, with the smallest failing response in `BlankValueExample`).
- The null nodes of the callback list are observable: a cancelled callback at the tail keeps a nested
  notification going so that it reaches a callback added later (`TombstoneTailIsObservable`). The ideal
  list therefore remembers the newest registration of the outermost notification.
- The sign-in request is cut off by its buffer, and never ends, if and only if the client's name has
  more than 997 characters and no blank line among those that still fit (`SignInRequestEndsIff`).
- A `SignOut` that overtakes the sign-in reply is lost: the check at line 333 fails for that reply and
  the client stays in SIGNING_OUT_WAITING (`FirstReplyCheckIff`, `SignOutProgress`,
  `SignOutOvertakesSignIn`). In general a waiting sign-out moves on if and only if the client has its id
  and the reply carries `Connection: close`.
- A sign-out need not be announced. When the connect for the sign-out request fails, the client is
  NOT_CONNECTED without any OnDisconnected; whenever the client gets to NOT_CONNECTED otherwise, there is
  exactly one (`SignOutIsQuiet`, with a run in `SilentSignOut`).
- A sign-out need not end. If its connection ends, not refused, before the reply, the client stays in
  SIGNING_OUT for ever: nothing leads out, not even Connect (`GetsStuckIff`, `StuckForEver`, with a run in
  `StuckSignOut`).
- A message that `SendToPeer` accepted need not be sent. It goes out if and only if the control socket
  connects before it is closed or replaced; if it is refused, the reconnect timer stages a sign-in over
  the message, and nothing is reported (`AcceptedMessageGoesOutIff`, with a run in
  `MessageLostToRefusal`).
- Half a reply can be taken for the start of the next one. The receive buffers are empty when connections
  open if and only if none ends half-way through a reply (`BuffersStartEmptyIff`, with a run in
  `LeftOver`).
- A connected client can go deaf. If the connect for a new hanging GET fails at once, nothing tries again:
  until it signs out or is disconnected the client hears no news. It keeps listening if and only if one of
  the attempts made each time succeeds (`ConnectedClientListensIff`, `DeafWhileConnected`).
- Waiting messages can be left asleep. A hand-over without a peer drops its message without a send
  event, and the messages behind it sleep if nothing else is going to look at the queue. A run lets a
  message sleep if and only if it has such a hand-over (`NoWakeUpIsLostIff`, with a run in
  `MessageSleeps`: the user hangs up right after two messages were signalled).
- Messages can be dropped. Exactly the hand-overs without a connected client, a peer and a working connect
  lose their message (`MessagesReachTheirPeerIff`, with a run in `MessageIsDropped`).
- Messages can reach a stranger. `DeletePeerConnection` keeps the pending messages, so that a message
  signalled for one peer is accepted for the next (`MessageReachesStranger`). The messages outstanding are
  always for the present peer if and only if no session ends or changes with messages outstanding; then
  no message goes astray, but it can still be dropped (`MailStaysAddressedIff`).
- A close can end the wrong call. The close posted when a peer leaves does not say whose it is. The queued
  closes are always for the session that is on if and only if no session with another peer starts while
  one is queued (`ClosesMeetTheirSessionIff`, with a run in `CloseEndsNewCall`).
- The check at line 155 of `peer_connection_client.cc` fails on the hang-up path exactly if there is a
  session and the control socket is busy (`HangUpCheckIff`, with a run in `HangUpDuringSend`).
- `lazy_instance_helpers.h` allows `creator_func` to return null, but then the check at line 91 can
  fail. For any number of threads it can fail if and only if there are at least two of them and null is
  returned (`CheckFailsIffNull`).
- `AlignUp` returns 0 when rounding up overflows the word; it is the least multiple not below the size
  if and only if it does not overflow (`AlignUpIsLeastIff`).
- `Log2Ceiling(1)` is 0; the comment's inequality has no integer power below 1 to compare with, and the
  bound is stated for numbers above 1.

## Model

| member | source | states |
|---|---|---|
| CallbackListRefinement.LazyDeletionRefinesEager | webrtc/include/base/callback_list.h:201-270 | for both kinds of list and every interleaving of additions, cancellations and nested notifications, nulling cancelled callbacks and pruning them at the end invokes the same callbacks in the same order, and the removal callback at the same moments, as a list that erases them at once; `empty()` agrees too |
| CallbackListRefinement.TombstoneTailIsObservable | webrtc/include/base/callback_list.h:193-199 | two runs that differ only in a callback cancelled before a nested notification began, and that invoke different callbacks: the null node at the tail cannot be forgotten |
| CallbackListRefinement.SimStep | webrtc/include/base/callback_list.h:201-270 | each single action keeps the real and the ideal list in agreement |
| CallbackListInvariant.StepKeeps | webrtc/include/base/callback_list.h:153-270 | every action keeps the invariant of list, frames, subscriptions and history |
| CallbackListInvariant.IteratorsNeverDangle | webrtc/include/base/callback_list.h:193-233 | in every reachable state each saved iterator points at a node of the list, `iterating_` is set exactly while a notification is active, and no null is left when none is |
| CallbackListInvariant.SubscriptionsOwnTheirNode | webrtc/include/base/callback_list.h:254-310 | a live subscription's node is null exactly if it sits in `null_callbacks_`, and then its callback has run; so `CancelCallback` erases from the list that owns the node, and the check at line 339 never fails |
| CallbackListInvariant.CancelledIsGone | webrtc/include/base/callback_list.h:254-310 | destroying a subscription leaves no callback to run and no null node waiting for it, and moves no other node |
| CallbackListInvariant.ErasedOnlyAtDepthZero | webrtc/include/base/callback_list.h:223-233 | while a notification of a repeating list is active, no step erases a node |
| CallbackListInvariant.FrameRunsEveryCallback | webrtc/include/base/callback_list.h:186-221 | when a notification's loop ends it has run, in registration order and never twice, exactly the callbacks present at its start that were not cancelled before their turn |
| CallbackListInvariant.InvocationBound | webrtc/include/base/callback_list.h:208-220 | a notification makes at most as many invocations as there were callbacks at its start plus additions since |
| CallbackListInvariant.OnceRunsAtMostOnce | webrtc/include/base/callback_list.h:290-299 | over any run no callback of a once-list executes twice |
| CallbackListInvariant.RemovalFiresExactly | webrtc/include/base/callback_list.h:232-243 | the removal callback runs in a step exactly if it is set and the step ends the outermost notification after a node left the list, or cancels a registered callback outside any notification |
| CallbackListObject.CallbackListBase.Add | webrtc/include/base/callback_list.h:153-169 | registers at the end, with or without a subscription, as the machine's step |
| CallbackListObject.CallbackListBase.CancelCallback | webrtc/include/base/callback_list.h:254-269 | destroying a subscription performs the machine's cancellation and leaves every saved iterator alone |
| CallbackListObject.CallbackListBase.Notify | webrtc/include/base/callback_list.h:201-244 | the real loop, whose callbacks re-enter the object by script, terminates and performs one whole notification of the machine in which each callback does what its script says and returns (`Notifies`); the iterators of the frames around it are untouched |
| CallbackListObject.CallbackListBase.Drain | webrtc/include/base/callback_list.h:208-220 | the loop over `next_valid` and `it++` runs the scripts of the callbacks it visits, one visit and one return each (`Visits`), and ends with nothing left to visit |
| CallbackListObject.CallbackListBase.Leave | webrtc/include/base/callback_list.h:223-243 | restores `iterating_`, prunes only at depth zero and fires the removal callback |
| Text.FindInPrefix | PjWebrtc/peer_connection_client.cc:298-298 | `find` on a prefix finds the same match exactly when the prefix reaches its end |
| Text.AtoiInPrefix | PjWebrtc/peer_connection_client.cc:263-263 | once a non-digit is in view, further text cannot change what `atoi` reads |
| Text.AtoiOfDecimal | PjWebrtc/peer_connection_client.cc:431-435 | `atoi` reads back every int printed in decimal, whatever non-digit text follows |
| Text.AtoiSkips | PjWebrtc/peer_connection_client.cc:263-263 | `atoi` skips any white space, takes one sign, and reads 0 where no digit follows |
| HttpFraming.HeaderSizeOfPrint | PjWebrtc/peer_connection_client.cc:256-267 | a number printed behind the first occurrence of the pattern is what `GetHeaderValue` delivers, converted to `size_t` |
| HttpFraming.HeaderTextOfPrint | PjWebrtc/peer_connection_client.cc:269-284 | a text value is delivered exactly up to the end of its line |
| HttpFraming.HeaderMissing | PjWebrtc/peer_connection_client.cc:256-284 | a header that does not occur before the blank line has no value |
| HttpFraming.ShouldCloseIff | PjWebrtc/peer_connection_client.cc:305-313 | a complete response closes its connection if and only if the value of its `Connection` header is `close` |
| HttpFraming.StaysOpen | PjWebrtc/peer_connection_client.cc:305-313 | a complete response without the header leaves it open |
| HttpFraming.FramingIsExactIff | PjWebrtc/peer_connection_client.cc:286-322 | for a response with a `Content-Length` header and that many body bytes, no proper prefix is taken for complete and the whole is, if and only if the body is empty or the header's value is not blank (`Framable`) |
| HttpFraming.BlankValueExample | PjWebrtc/peer_connection_client.cc:256-267 | the smallest response that is framed wrongly |
| HttpFraming.FramingIsChunkIndependent | PjWebrtc/peer_connection_client.cc:286-322 | received into an empty buffer and cut into any non-empty pieces, a response whose body is empty or whose length is not blank is complete exactly with the last piece |
| PeerEntries.ParseEntryOfPrint | PjWebrtc/peer_connection_client.cc:419-439 | `name,id,flag` with any name without comma or newline and any int parses back exactly, also with text after it that starts with no digit |
| PeerEntries.ParseEntryOfFields | PjWebrtc/peer_connection_client.cc:419-439 | with any two ints behind the name, the member is connected if and only if the second is not 0 |
| PeerEntries.ParseEntryWithoutFlag | PjWebrtc/peer_connection_client.cc:433-437 | without a second comma the member counts as not connected |
| PeerEntries.ParseEntryNeedsAName | PjWebrtc/peer_connection_client.cc:419-439 | an entry is refused if and only if it has no comma or starts with one |
| PeerEntries.BodyLines | PjWebrtc/peer_connection_client.cc:338-355 | over any text, the loop takes the lines that parse and are not ours, skips the others, and ignores what stands behind the last line end |
| PeerEntries.SignInBodyParses | PjWebrtc/peer_connection_client.cc:338-355 | the line loop reads exactly the listed members in order, without our own id |
| PeerEntries.EnterLastWins | PjWebrtc/peer_connection_client.cc:347-352 | the map holds exactly the listed ids, each under the name listed last |
| PeerEntries.EnterOthers | PjWebrtc/peer_connection_client.cc:347-352 | leaving ourselves out while reading equals taking ourselves out of the whole list |
| PeerEntries.NoticesMirror | PjWebrtc/peer_connection_client.cc:388-403 | joins and departures of others keep the list equal to the server's membership without ourselves |
| PeerEntries.LastNoticeWins | PjWebrtc/peer_connection_client.cc:391-403 | after any notifications a member is listed, under the name last notified, if and only if the last one about it was a join; members not notified stay as they were |
| PeerClient.StepKeeps | PjWebrtc/peer_connection_client.cc:133-235 | every event keeps the client's invariant: sockets, state, id, peers and staged request fit together |
| PeerClient.StateInvariant | PjWebrtc/peer_connection_client.cc:324-502 | in every reachable state: a hanging GET in use implies CONNECTED with an id; NOT_CONNECTED implies no id, no peers, closed sockets and nothing staged; a connecting control socket has a request staged |
| PeerRequests.MessageRequestIsFramed | PjWebrtc/peer_connection_client.cc:159-167 | for all int ids and every message, the request names sender and receiver, declares the message's length, carries the message as its body and is framed exactly where it ends by the rules applied to replies; the header buffer never truncates it |
| PeerRequests.SignOutRequestNamesUs | PjWebrtc/peer_connection_client.cc:191-194 | the sign-out request is terminated and names our id, for every int |
| PeerRequests.SignInCarriesTheName | PjWebrtc/peer_connection_client.cc:137-140 | the sign-in request carries as much of the name as its buffer holds, and names of up to 997 characters whole |
| PeerRequests.SignInRequestEndsIff | PjWebrtc/peer_connection_client.cc:137-140 | for every name, a blank line ends the sign-in request if and only if the name has at most 997 characters or itself holds a blank line within its first 1010 |
| PeerRequests.LongNameNeverEnds | PjWebrtc/peer_connection_client.cc:137-140 | every name of 998 characters without a carriage return makes a request that never ends |
| PeerClientProperties.SignOutIsQuiet | PjWebrtc/peer_connection_client.cc:180-218 | from SignOut while connected until the next sign-in, whether or not connects succeed: no observer call about a peer, the state only moves towards NOT_CONNECTED, and OnDisconnected is called exactly once when it gets there - except, and then never, if a failed connect for the sign-out request brought it there |
| PeerScenarios.SilentSignOut | PjWebrtc/peer_connection_client.cc:187-195 | a run from the start, with the reply spelled out, whose sign-out ends NOT_CONNECTED without OnDisconnected |
| PeerScenarios.ReplySignsIn | PjWebrtc/peer_connection_client.cc:324-373 | a concrete reply is framed, parsed and answered: connected with id 7, the control socket free, OnMessageSent before OnSignedIn |
| PeerClientProperties.SignOutProgress | PjWebrtc/peer_connection_client.cc:358-363 | a complete successful reply ends a sign-out in progress with OnDisconnected; it moves a waiting one on if and only if the client has its id and the reply closes the connection, to SIGNING_OUT or, if the connect fails, to NOT_CONNECTED |
| PeerClientProperties.GetsStuckIff | PjWebrtc/peer_connection_client.cc:180-205 | without a reconnect timer, a step leaves a sign-out in progress stuck if and only if the control connection ends, not refused |
| PeerClientProperties.StuckForEver | PjWebrtc/peer_connection_client.cc:85-96 | no run leads out of a stuck sign-out, `Connect` included |
| PeerScenarios.StuckSignOut | PjWebrtc/peer_connection_client.cc:474-491 | a run from the start to a stuck sign-out |
| PeerClientProperties.SignOutOvertakesSignIn | PjWebrtc/peer_connection_client.cc:331-333 | a run that reaches SIGNING_OUT_WAITING without an id, where the check at line 333 fails on the reply |
| PeerClientProperties.FirstReplyCheckIff | PjWebrtc/peer_connection_client.cc:180-202 | the check at line 333 holds for the first reply exactly if no sign-out has overtaken it, and only SignOut while signing in with the control socket in use gets there |
| PeerClientProperties.SignInNeedsAnId | PjWebrtc/peer_connection_client.cc:331-372 | the first reply ends CONNECTED, and the invariant then holds exactly if the reply assigned an id other than -1 |
| PeerClientProperties.RunPeers | PjWebrtc/peer_connection_client.cc:376-417 | while the client stays connected, its peer list changes by the notifications it receives and nothing else |
| PeerClientProperties.PeersMirrorServer | PjWebrtc/peer_connection_client.cc:386-403 | after any run that stays connected the peer list is the server's membership after the notified joins and departures, without ourselves |
| PeerClientProperties.PrintedNotice | PjWebrtc/peer_connection_client.cc:388-403 | the notification printed for a member is received as that member |
| PeerClientProperties.SignInMirrorsServer | PjWebrtc/peer_connection_client.cc:331-357 | the sign-in reply leaves the listed members, last name wins, without ourselves, and announces them in order before OnSignedIn |
| PeerClientProperties.PeersMirrorServerFromStart | PjWebrtc/peer_connection_client.cc:324-417 | from the start of the client: after any run up to the sign-in reply, that reply, and any run in which the client stays connected, the peer list is the listed membership after the notified joins and departures, without ourselves |
| PeerClientProperties.StatusOfPrint | PjWebrtc/peer_connection_client.cc:441-447 | the status is the number printed behind the first space |
| PeerClientProperties.PragmaOfPrint | PjWebrtc/peer_connection_client.cc:466-471 | every 32-bit id printed in the Pragma header survives the way through `size_t` and back |
| PeerClientProperties.NothingPrinted | PjWebrtc/peer_connection_client.cc:441-471 | without a space the status is -1, and without a Pragma header the id is |
| PeerClientProperties.PacketsDoNotMatter | PjWebrtc/peer_connection_client.cc:286-417 | on either socket, with an empty buffer, a response whose body is empty or whose length is not blank has the same effect in one packet or cut into any number of pieces |
| PeerTraffic.CallsOfEvent | PjWebrtc/peer_connection_client.cc:85-507 | every event makes exactly the observer calls its news warrant, in this order: the socket that came free, then members or a disconnection, then the sign-in |
| PeerTraffic.StateOfEvent | PjWebrtc/peer_connection_client.cc:85-507 | the state diagram: each transition of `state_` with its cause; the id comes with the sign-in reply and goes with the connection |
| PeerTraffic.RequestOfEvent | PjWebrtc/peer_connection_client.cc:133-235 | each event connects the control socket for exactly this request - a sign-in under our name, a sign-out or a message under our own id - and a request goes out when its socket connects |
| PeerTraffic.SocketsOfEvent | PjWebrtc/peer_connection_client.cc:180-507 | both sockets, the peer list, the name and the reconnect timers after every event |
| PeerRuns.NoticeIsAnnounced | PjWebrtc/peer_connection_client.cc:388-403 | a notification printed for a member is announced by one call: PeerConnected with its id and name, or PeerDisconnected with its id |
| PeerRuns.MessageIsPassedOn | PjWebrtc/peer_connection_client.cc:246-254 | a message under another id is passed on by one call with that id and its body, as a departure if it says BYE |
| PeerRuns.ObserverHearsTheNews | PjWebrtc/peer_connection_client.cc:376-417 | over any run that stays connected, what the observer hears about peers is the news that arrived on the hanging GET, in order and each once |
| PeerRuns.MemberCallsAreTheNotices | PjWebrtc/peer_connection_client.cc:386-403 | if no peer says goodbye in such a run, the joins and departures announced are the notifications received, in order: the very ones by which the peer list changes |
| PeerRuns.RequestsGoOutInOrder | PjWebrtc/peer_connection_client.cc:133-235 | over any run from the start, what goes out on the control socket are requests that were made, unaltered, in their order and each at most once |
| PeerRuns.ConnectedClientListensIff | PjWebrtc/peer_connection_client.cc:410-489 | in every state of a run a connected client has its hanging GET in use if and only if, each time a new one was needed, one of the attempts to connect it succeeded |
| PeerRuns.DeafWhileConnected | PjWebrtc/peer_connection_client.cc:410-489 | a connected client whose hanging GET is closed hears nothing and keeps its peer list for as long as it stays connected |
| PeerSockets.BuffersStartEmptyIff | PjWebrtc/peer_connection_client.cc:286-322 | over any run, the buffers are empty while their sockets are not open if and only if no connection ends half-way through a reply |
| PeerSockets.CleanIff | PjWebrtc/peer_connection_client.cc:474-502 | the events that leave half a reply behind, exactly |
| PeerSockets.AcceptedMessageGoesOutIff | PjWebrtc/peer_connection_client.cc:150-169 | a message accepted in any reachable state is sent in what follows if and only if the control socket connects before it is closed, refused or replaced; sign-out does not prevent it |
| PeerScenarios.MessageLostToRefusal | PjWebrtc/peer_connection_client.cc:490-507 | a run from the start in which an accepted message is never sent and nothing is reported |
| PeerScenarios.LeftOver | PjWebrtc/peer_connection_client.cc:286-322 | a run from the start that leaves a character of an old reply in the buffer of a closed socket |
| PeerReplies.ReplyMeans | PjWebrtc/peer_connection_client.cc:441-472 | every written-out reply with a one-digit id and a body of fewer than ten characters is complete, closing and successful, and gives back its id and body |
| PeerClientObject.PeerConnectionClient.Connect | PjWebrtc/peer_connection_client.cc:85-118 | refuses with OnServerConnectionFailure unless idle and named, otherwise starts signing in |
| PeerClientObject.PeerConnectionClient.DoConnect | PjWebrtc/peer_connection_client.cc:133-148 | fresh sockets, a staged sign-in request, and SIGNING_IN or a reported failure |
| PeerClientObject.PeerConnectionClient.SendToPeer | PjWebrtc/peer_connection_client.cc:150-169 | stages the message and connects; the checks at lines 154 and 155 hold |
| PeerClientObject.PeerConnectionClient.SignOut | PjWebrtc/peer_connection_client.cc:180-205 | closes the hanging GET, then signs out now or waits for the control socket |
| PeerClientObject.PeerConnectionClient.OnConnect | PjWebrtc/peer_connection_client.cc:230-235 | the staged request goes out; the check at line 231 never fails |
| PeerClientObject.PeerConnectionClient.Receive | PjWebrtc/peer_connection_client.cc:289-295 | the Recv loop appends what arrives, in order |
| PeerClientObject.PeerConnectionClient.ReadPeerList | PjWebrtc/peer_connection_client.cc:338-355 | the line loop enters and announces exactly the entries of the body |
| PeerClientObject.PeerConnectionClient.OnRead | PjWebrtc/peer_connection_client.cc:324-374 | performs the transition for a control-socket read; the check at line 369 never fails |
| PeerClientObject.PeerConnectionClient.OnHangingGetRead | PjWebrtc/peer_connection_client.cc:376-417 | performs the transition for a hanging-GET read, reconnecting when needed; `CallsOfEvent`, `StateOfEvent` and `SocketsOfEvent` say what that is |
| PeerClientObject.PeerConnectionClient.OnCloseControl | PjWebrtc/peer_connection_client.cc:474-502 | reports the message sent, or starts the retry timer when refused |
| PeerClientObject.PeerConnectionClient.OnCloseHanging | PjWebrtc/peer_connection_client.cc:474-502 | reconnects while connected, or disconnects when refused |
| PeerClientObject.PeerConnectionClient.ParseServerResponse | PjWebrtc/peer_connection_client.cc:449-472 | status, end of headers and Pragma id, or Close and OnDisconnected on any status but 200 |
| ConductorProperties.ActKeeps | PjWebrtc/conductor.cc:126-592 | every socket event, user action and UI turn keeps the session invariant, the message order and the peer of a session that lasts through it; waiting messages lose their wake-up in exactly one kind of step, a hand-over without a peer that leaves a message behind and nothing to look at it |
| ConductorRuns.OneSessionOnePeer | PjWebrtc/conductor.cc:131-199 | at every event boundary a connection exists exactly if there is a peer id and exactly if there is a factory, loopback needs a connection, and every description or candidate applied in the present session came from its one peer |
| ConductorRuns.SessionKeepsItsPeer | PjWebrtc/conductor.cc:289-311 | after any run, through any further run of socket events, user actions and UI turns in which the session lasts, its peer stays the same |
| ConductorTraffic.CallOfTurn | PjWebrtc/conductor.cc:126-553 | calls begin, go on and end in every turn as an independent call machine (`NextCall`) says, which sees only the news from the server, the user's actions and the posted closes |
| ConductorTraffic.StrangersChangeNothing | PjWebrtc/conductor.cc:305-311 | whatever another peer than the session's sends, words or a goodbye, the session and the UI queue stay as they are |
| ConductorHistory.SessionBeginsIff | PjWebrtc/conductor.cc:289-437 | a session with a peer begins in a turn if and only if the user calls that peer, or a first message of it arrives, and a connection can be made |
| ConductorHistory.SessionEndsIff | PjWebrtc/conductor.cc:126-503 | a session ends in a turn if and only if the user hangs up or closes the window, a posted close is handled, the client is disconnected, or its peer asks for a loopback that cannot be made; otherwise it keeps its peer and is handed just what the turn brings from it |
| ConductorHistory.PresentSession | PjWebrtc/conductor.cc:289-437 | whenever a run ends with a session, one of its turns began it by one of the two causes and with this peer, it has lasted since, and its connection was handed exactly the descriptions and candidates this peer sent since, in order |
| ConductorRuns.MessagesKeepTheirOrder | PjWebrtc/conductor.cc:505-530 | the log of messages handed over, then the pending ones, then those in the UI queue are always the signalled sequence; `HandOverStages` and `TheServerGetsTheMail` say that the log is what goes out |
| ConductorLetters.HandOverStages | PjWebrtc/conductor.cc:515-519 | an accepted hand-over stages the message that has waited longest, addressed to the session's peer under our id |
| ConductorLetters.HangUpStages | PjWebrtc/conductor.cc:477-481 | an accepted hang-up stages BYE to the session's peer |
| ConductorLetters.TheServerGetsTheMail | PjWebrtc/conductor.cc:505-530 | after every run, what went out on the control socket are, in order, messages signalled, goodbyes and requests to sign in or out; the messages prepared for it are exactly those whose fate is to be given to a peer, in the order they were signalled, unaltered and each for that peer |
| ConductorTraffic.ClientOfTurn | PjWebrtc/conductor.cc:256-592 | what each turn asks of the client, and nothing else: its socket events, signing in and out, the goodbye of a hang-up and the oldest message |
| ConductorTraffic.QueueOfTurn | PjWebrtc/conductor.cc:256-592 | what each turn posts to the UI queue, and nothing else: a message signalled, a changed track, the news that the control socket is free, the departure of the present peer |
| ConductorHistory.ClientRunsAlone | PjWebrtc/conductor.cc:256-592 | the client in every run of the conductor has run as a client on its own, so all results about the client's runs hold of it |
| ConductorRuns.OneMessageInFlight | PjWebrtc/conductor.cc:515-521 | in every reachable state the messages `SendToPeer` accepted exceed the times the control socket came free by at most one, and by none while it is free |
| ConductorRuns.LaunchUsesTheSocket | PjWebrtc/conductor.cc:477-524 | a message is accepted only when the control socket is free, and the socket is in use afterwards |
| ConductorRuns.NoWakeUpIsLostIff | PjWebrtc/conductor.cc:394-397 | every state of a run has a busy control socket, a queued send event or a running reconnect timer whenever messages wait on a connected client, if and only if the run has no hand-over without a peer that leaves a message behind and nothing to look at it |
| ConductorScenarios.MessageSleeps | PjWebrtc/conductor.cc:477-530 | a run from the start that leaves a message waiting on an idle connection, with nothing queued or timed that will look at it |
| ConductorMail.MessagesReachTheirPeerIff | PjWebrtc/conductor.cc:515-527 | over any run: `SendToPeer` accepted every message handed over if and only if each hand-over found a connected client, a peer and a working connect; none was accepted for a stranger if and only if no such hand-over took place while the session was with another peer than the message's; each was accepted for its own peer if and only if both hold |
| ConductorMail.MailStaysAddressedIff | PjWebrtc/conductor.cc:192-199 | the messages outstanding are for the present peer in every state of a run if and only if no session ends or changes its peer with messages outstanding; then being dropped is the only way not to be delivered |
| ConductorMail.DeliveryIff | PjWebrtc/conductor.cc:515-523 | one turn keeps each of the three properties if and only if it is not the kind of hand-over that breaks it |
| ConductorScenarios.MessageIsDropped | PjWebrtc/conductor.cc:515-524 | a run from the start in which a message for the right peer reaches nobody |
| ConductorMail.ClosesMeetTheirSessionIff | PjWebrtc/conductor.cc:277-287 | queued closes are for the session that is on in every state of a run if and only if no session with another peer starts while a close is queued |
| ConductorScenarios.CloseEndsNewCall | PjWebrtc/conductor.cc:490-503 | a run from the start in which the close posted for peer 2 ends the call with peer 3 |
| ConductorScenarios.MessageReachesStranger | PjWebrtc/conductor.cc:477-530 | a run from the start that hands a message signalled for peer 2 to peer 3 |
| ConductorScenarios.HangUpDuringSend | PjWebrtc/conductor.cc:477-481 | a run from the start after which a hang-up fails the check at line 155 of the client |
| ConductorObject.ConductorImpl.InitializePeerConnection | PjWebrtc/conductor.cc:131-159 | makes factory and connection, or deletes the session; the checks at lines 132 and 133 are its callers' duty and proved at each call |
| ConductorObject.ConductorImpl.OnMessageFromPeer | PjWebrtc/conductor.cc:289-392 | performs the session's step, which begins a session with a first message and ignores strangers (`CallOfTurn`, `StrangersChangeNothing`); the checks at lines 297 and 306 never fail |
| ConductorObject.ConductorImpl.OnSocket | PjWebrtc/conductor.cc:256-397 | the client handles a socket event and each of its calls is handled here, in order: together the system's socket step |
| ConductorObject.ConductorImpl.ConnectToPeer | PjWebrtc/conductor.cc:420-437 | starts a session when none exists and changes nothing otherwise |
| ConductorObject.ConductorImpl.DisconnectFromCurrentPeer | PjWebrtc/conductor.cc:477-486 | says goodbye and deletes the session |
| ConductorObject.ConductorImpl.UIThreadCallback | PjWebrtc/conductor.cc:488-553 | handles one posted event, handing over at most one pending message: the oldest (`HandOverStages`) |
| ConductorObject.ConductorImpl.SendMessage | PjWebrtc/conductor.cc:585-592 | posts the message to the UI queue |
| ConductorObject.ConductorImpl.StartLogin | PjWebrtc/conductor.cc:408-413 | connects the client unless it has an id |
| ConductorObject.ConductorImpl.Close | PjWebrtc/conductor.cc:126-129 | signs out and deletes the session |
| LazyPointer.Linearizable | webrtc/include/base/lazy_instance_helpers.h:66-94 | for any number of threads and any interleaving, the creator runs at most once and exactly once if a call returned, all calls return the same pointer, and the check at line 91 never fails, when the creator returns neither 0 nor 1 |
| LazyPointer.ReturnsWhatWasCreated | webrtc/include/base/lazy_instance_helpers.h:66-94 | every call returns the pointer that the one call of `creator_func` in the run returned |
| LazyPointer.EveryCallReturns | webrtc/include/base/lazy_instance_helpers.h:22-33 | every run takes at most five steps a thread and can only stop when every call has returned |
| LazyPointer.CheckFailsIffNull | webrtc/include/base/lazy_instance_helpers.h:85-92 | for every number of threads, some interleaving fails the check at line 91 if and only if there are at least two threads and the creator returns null |
| LazyPointer.LazyInstance.Advance | webrtc/include/base/lazy_instance_helpers.h:66-94 | one atomic step of one thread on the shared word, for any created value; with a created instance the invariant is kept and the check at line 91 holds |
| SendTime.TickDeltaIs | webrtc/include/api/rtp_headers.h:106-111 | shift and sign extension give the one number in [-2^23, 2^23) congruent to the difference modulo 2^24 |
| SendTime.StepRecovered | webrtc/include/api/rtp_headers.h:106-111 | a true step within half the range is recovered from the two wrapped times |
| SendTime.TicksUnwrap | webrtc/include/api/rtp_headers.h:106-111 | over any packet sequence with such steps the summed deltas are the unwrapped tick count, however often the counter wrapped |
| SendTime.MicrosUnwrap | webrtc/include/api/rtp_headers.h:106-113 | the microsecond sum over n steps differs from the exact rational by less than n |
| SendTime.TimestampsKeepOrder | webrtc/include/api/rtp_headers.h:99-104 | distinct send times keep their order and a distance of at least three microseconds a tick |
| SendTime.TimestampIs | webrtc/include/api/rtp_headers.h:99-104 | a timestamp is the exact time in microseconds, less a part of one |
| SendTime.DeltaIs | webrtc/include/api/rtp_headers.h:106-113 | a delta is the exact one, less a part of a microsecond towards zero |
| ScopedRefptr.ReferencesAreConserved | webrtc/include/api/scoped_refptr.h:76-156 | after any sequence of operations nothing was touched after deletion, every count is the number of variables and raw owners, an object is deleted exactly if it was held and is no longer, and no variable points to a deleted object |
| ScopedRefptr.EveryVariablePointsRight | webrtc/include/api/scoped_refptr.h:76-156 | after any sequence of operations every variable points where the operations, read as pointer assignments without counts, make it point, and every count is the number of these pointers and raw owners |
| ScopedRefptr.StepKeeps | webrtc/include/api/scoped_refptr.h:76-156 | each operation keeps references conserved |
| ScopedRefptr.SelfAssignment | webrtc/include/api/scoped_refptr.h:120-142 | assigning a variable to itself, by copy or by move, changes nothing at all |
| ScopedRefptr.AssignIsCopyAndSwap | webrtc/include/api/scoped_refptr.h:120-128 | assigning a raw pointer equals making a temporary from it, swapping and destroying the temporary |
| ScopedRefptr.MoveAssignPointers | webrtc/include/api/scoped_refptr.h:139-142 | move assignment empties the source, hands its pointer over and releases only the old pointee |
| ScopedRefptr.DestroyIsReleaseAndDrop | webrtc/include/api/scoped_refptr.h:100-118 | the destructor gives back exactly what `release()` would have handed out |
| ScopedRefptrObject.RefCounted.Release | webrtc/include/api/ref_counted_base.h:24-30 | drops one reference and deletes the object with the last one |
| ScopedRefptrObject.ScopedPtr.Copy | webrtc/include/api/scoped_refptr.h:83-86 | points where the original points and counts one more reference |
| ScopedRefptrObject.ScopedPtr.Move | webrtc/include/api/scoped_refptr.h:95-95 | takes the pointer over without touching the count |
| ScopedRefptrObject.ScopedPtr.Destroy | webrtc/include/api/scoped_refptr.h:100-103 | the variable's reference is released, on an object that is still alive |
| ScopedRefptrObject.ScopedPtr.Take | webrtc/include/api/scoped_refptr.h:114-118 | the caller owns the reference from here on |
| ScopedRefptrObject.ScopedPtr.Assign | webrtc/include/api/scoped_refptr.h:120-128 | performs the machine's assignment, never touching a deleted object, self assignment included |
| ScopedRefptrObject.ScopedPtr.AssignMove | webrtc/include/api/scoped_refptr.h:139-142 | temporary, swap and destruction perform the machine's move assignment, self-move included |
| ScopedRefptrObject.ScopedPtr.Swap | webrtc/include/api/scoped_refptr.h:150-156 | exchanges two pointers and no counts |
| ScopedRefptrObject.ScopedPtr.SwapRaw | webrtc/include/api/scoped_refptr.h:150-154 | exchanges references with a raw pointer that owns one |
| CancelableCallback.ForwarderRunsIff | webrtc/include/base/cancelable_callback.h:77-129 | after any history, a forwarder run after any further actions invokes a callback if and only if none of them invalidated it, and then the one wrapped when it was issued |
| CancelableCallback.ForwarderCanRunIff | webrtc/include/base/cancelable_callback.h:97-129 | an issued forwarder can be run as often as one likes, or once if it is a once-callback |
| CancelableCallback.WrappedIsInstalled | webrtc/include/base/cancelable_callback.h:77-94 | the wrapped callback is that of the last Reset, unless cancelled, destroyed or run once since |
| CancelableCallback.WrappedFromStart | webrtc/include/base/cancelable_callback.h:69-94 | a callback given to the constructor is wrapped until something else happens to it |
| CancelableCallback.NothingRunsUntilReset | webrtc/include/base/cancelable_callback.h:77-103 | once nothing is wrapped, nothing runs before a Reset |
| CancelableCallback.DestroyedRunsNothing | webrtc/include/base/cancelable_callback.h:74-81 | after the destructor nothing runs any more |
| CancelableCallback.OnceRunsOncePerReset | webrtc/include/base/cancelable_callback.h:125-129 | between two runs of a once-callback's forwarders there is a Reset: at most one forwarder of a generation ever runs |
| CancelableCallback.NeverRunsNull | webrtc/include/base/cancelable_callback.h:120-129 | no run ever calls a null callback |
| CancelableCallback.CancelableCallbackImpl.Reset | webrtc/include/base/cancelable_callback.h:89-94 | cancels everything outstanding, then wraps the new callback |
| CancelableCallback.CancelableCallbackImpl.MakeForwarder | webrtc/include/base/cancelable_callback.h:97-118 | gives a current forwarder, or a null callback when nothing is wrapped |
| CancelableCallback.CancelableCallbackImpl.IsCancelled | webrtc/include/base/cancelable_callback.h:83-85 | a cancelled object has no current forwarder left |
| CancelableCallback.CancelableCallbackImpl.RunForwarder | webrtc/include/base/cancelable_callback.h:120-129 | runs what the object wraps while the weak pointer is valid and is dropped otherwise; the once variant invalidates first |
| BigEndian.ReadUnsigned | webrtc/include/base/big_endian.h:22-35 | the loop computes the positional value of the first n bytes |
| BigEndian.ReadSigned | webrtc/include/base/big_endian.h:22-35 | the same value as two's complement |
| BigEndian.Write | webrtc/include/base/big_endian.h:39-47 | the loop writes the n base-256 digits and nothing else |
| BigEndian.WriteThenRead | webrtc/include/base/big_endian.h:22-47 | reading back gives the value, for every unsigned and every signed n-byte integer |
| BigEndian.ReadThenWrite | webrtc/include/base/big_endian.h:22-47 | writing back what was read leaves the buffer as it was |
| BigEndian.ValueOfDigits | webrtc/include/base/big_endian.h:39-47 | the digits of an n-byte number have its value |
| BigEndian.DigitsOfValue | webrtc/include/base/big_endian.h:22-35 | every byte string consists of the digits of its value |
| BigEndian.SignedOfUnsigned | webrtc/include/base/big_endian.h:25-34 | every signed n-byte value survives the conversion to unsigned and back |
| BigEndian.LexIsNumeric | webrtc/include/base/big_endian.h:17-35 | lexicographic order of byte strings of one length is numeric order |
| Bits.PowerOfTwoIff | webrtc/include/base/bits.h:27-38 | the test holds if and only if the value is a power of two |
| Bits.AlignDownIsGreatest | webrtc/include/base/bits.h:39-43 | the greatest multiple of the alignment not above the size |
| Bits.AlignUpIsLeastIff | webrtc/include/base/bits.h:53-57 | the least multiple not below the size if and only if rounding up fits the word, and 0 otherwise |
| Bits.AlignmentIsStable | webrtc/include/base/bits.h:39-57 | both are idempotent and monotone where nothing overflows |
| Bits.NarrowLeadingZeros | webrtc/include/base/bits.h:92-101 | for every width up to 32 bits the width-adjusted scan is the count of leading zeros |
| Bits.WideLeadingZeros | webrtc/include/base/bits.h:104-127 | the two-half scan is the count of leading zeros of every 64-bit word |
| Bits.NarrowTrailingZeros | webrtc/include/base/bits.h:129-138 | the scan is the count of trailing zeros for every width up to 32 bits |
| Bits.WideTrailingZeros | webrtc/include/base/bits.h:140-162 | the two-half scan is the count of trailing zeros of every 64-bit word |
| Bits.Log2FloorIs | webrtc/include/base/bits.h:220-223 | 2^Log2Floor(n) <= n < 2^(Log2Floor(n) + 1) for every positive n, and -1 for 0 |
| Bits.Log2CeilingIs | webrtc/include/base/bits.h:225-231 | 2^(Log2Ceiling(n) - 1) < n <= 2^Log2Ceiling(n) for every n above 1; 0 for 1 and -1 for 0 |

## Left out

- Once-lists notified from within their own notification: `splice` at line 295 of `callback_list.h` can move a node an outer frame has saved; the machine lets only repeating lists nest.
- Destroying a callback list during its notification, and a removal callback that deletes the list.
- CallbackListObject.CallbackListBase.Notify: callbacks are finite scripts of list operations; an endlessly self-notifying callback is covered by the machine's runs only.
- PeerClientObject.PeerConnectionClient.Connect: the branch that resolves a host name and the port default are not modelled; the server is an IP literal.
- ConductorObject.ConductorImpl.InitializePeerConnection: a failing `CreatePeerConnection` at lines 151-154 is not modelled; `AddTracks` would then use a connection that does not exist.
- ConductorObject.ConductorImpl.DisconnectFromCurrentPeer: demands that the check at line 155 holds; what a build without checks does to a socket in use is not visible here. `HangUpCheckIff` says when it holds.
- Name resolution (RESOLVING, `OnResolveResult`), the port default, and stale retry timers during a lookup: the server is an IP literal.
- Real sockets, timers, Win32 and Qt windows, logging: events, counters and arguments of the steps. A closed socket is silent. The hanging GET's own request is left out.
- PeerClient.StateInvariant: the server is taken to assign an id other than -1 (`ServerAssignsId`), and `SendToPeer` to be called on a closed control socket, which the hang-up path at line 480 of `conductor.cc` does not guard; `SignInNeedsAnId` says exactly what the first assumption is for.
- Text.AtoiOfDecimal: numbers outside the range of int, where C leaves `atoi` undefined, stay mathematical.
- PeerClientProperties.PacketsDoNotMatter: starts from an empty buffer, as HttpFraming.FramingIsChunkIndependent does; `BuffersStartEmptyIff` says when connections start with one, and what is read after a left-over part is not described further.
- Names and messages that contain a NUL character, which the C string functions would cut short.
- The checks at line 426 of `peer_connection_client.cc` (empty entry) and at lines 290, 291 and 421 of `conductor.cc`: they fail on an empty line of the peer list, a message from a stranger, an empty message and a second call, which the code after them handles.
- ConductorRuns.OneMessageInFlight: runs in which a hang-up finds the control socket in use are left out, as for DisconnectFromCurrentPeer.
- ConductorRuns.OneSessionOnePeer: `CreatePeerConnection` at line 151 of `conductor.cc` is taken to succeed and peer ids are never -1.
- JSON, SDP and ICE parsing, tracks, renderers and the media library: their answers are arguments (`MessageKind`).
- `QtWebrtc/conductor.cpp`: a reduced copy whose `SendMessage` sends nothing.
- Memory orders and the internals of `NeedsLazyInstance` and `CompleteLazyInstance`: sequentially consistent steps at their documented contracts.
- ScopedRefptr.ReferencesAreConserved: a deleted object's own `scoped_refptr` members are not modelled, so a deletion does not cascade; the atomicity of the counter is taken for granted.
- CancelableCallback.ForwarderRunsIff: arguments passed through a forwarder are not modelled.
- The 8-bit specializations of the big-endian codec, which are the general loop at one byte; the 64-bit-target and GCC variants of the bit scans, whose formulas are those of the narrow ones.
- Bits.AlignUpIsLeastIff: the pointer overloads and the deprecated `Align` call the modelled functions on the address.
- Declaration-only headers, binding templates, macros and proxies: no bodies to model.
