# Chat relay backend, modelled in Dafny

The backend of this chat application is a small websocket relay. It keeps:

- a registry of connected clients, each with the username taken from its
  connection request;
- one broadcast channel.

Each connection runs a read loop with three jobs:

- it registers the client and announces "<name> joined the chat" from the
  sender "System";
- it stamps every frame it reads with the client's registered name, then
  hands the frame to the channel;
- on the first read error it deregisters the client and announces
  "<name> left the chat".

A single broadcast loop takes each message off the channel and writes it to
every registered client, the sender included. A client whose write fails is
deleted from the registry.

The model has three modules:

- `Messages` (Messages.dfy): the `Message` record, the two notices the relay
  generates, and the stamping of a frame with its sender's name.
- `Relay` (Relay.dfy): the relay as a sequential state machine. A `State`
  value holds:
  - the registry;
  - the usernames;
  - the set of running read loops;
  - the channel, as a FIFO `seq<Message>`;
  - what was written to each connection (`inbox`);
  - what each read loop enqueued (`sent`);
  - the next client identity.

  The transitions are `Connect`, `Receive`, `ReadFail` and `Round`. An
  `Event` sequence, folded by `Run`, is any interleaving of the read loops
  and the broadcast loop. The lemmas state the relay's guarantees about
  single steps and about whole runs.
- `Backend` (Server.dfy): the class `Server`, whose fields are the program's
  globals. Its methods update those fields in place, the way the read loops
  and the broadcast loop do. `Connect`, `Receive` and `ReadFail` are proved
  to perform exactly the `Relay` function of the same name, and
  `BroadcastRound` exactly `Relay.Round`. `WriteToAll`, the broadcast
  round's `while` loop over the clients still to be written, deletes the
  failed ones from the registry as it goes and is proved against
  `Relay.Deliver`. The loops `ReadFrames`, `ReadLoop`, `HandleConnection`
  and `HandleMessages` are proved equal to `Relay.Run` over their sequence
  of events.

Other modelling choices:

- **Client identities.** A client is a freshly allocated `*Client` pointer,
  so two connections never share an identity. Usernames, on the other hand,
  may be empty or repeated. The model numbers clients from `nextId`, and
  `Relay.FreshIdentity` states that the number is unused.
- **Failures are inputs.** Read outcomes are events. Write outcomes are the
  set `writeFails` of clients whose write fails in a round.
- **`Message.Type` is a free string** (backend/main.go:20). The relay passes
  it through unchanged; the web client sends "message"
  (frontend/chat-app/src/app/services/chat.service.ts:33).

## Model

| member | source | states |
|---|---|---|
| Messages.JoinNotice | backend/main.go:62-66 | defines the join notice: type "join", content the username followed by " joined the chat", sender "System"; its properties are the lemmas below |
| Messages.LeaveNotice | backend/main.go:77-81 | defines the leave notice: type "leave", content the username followed by " left the chat", sender "System" |
| Messages.Stamp | backend/main.go:85 | defines stamping: the frame with its username replaced; see StampOverridesClaimedName |
| Messages.StampOverridesClaimedName | backend/main.go:84-85 | a stamped frame keeps its type and content and carries the client's registered name, whatever name the frame claimed |
| Messages.JoinNoticeInjective | backend/main.go:62-66 | the join notice determines the name it announces |
| Messages.LeaveNoticeInjective | backend/main.go:77-81 | the leave notice determines the name it announces |
| Messages.JoinIsNotLeave | backend/main.go:62-81 | no join notice equals a leave notice |
| Messages.StampedFrameIsNotNotice | backend/main.go:62-87 | a frame from a client not named "System" can never equal a relay notice |
| Messages.SystemNamedClientForgesNotice | backend/main.go:53-87 | usernames are unchecked, so a client named "System" can send a frame identical to the join notice about anyone |
| Relay.Init | backend/main.go:33-38 | defines the starting state: empty registry, empty channel, nothing written or read; see InitValid |
| Relay.Connect | backend/main.go:50-66 | defines a new connection: a fresh identity registered with its username, its loop started, its join notice enqueued; see ConnectRegistersFreshClient and ConnectPreservesValid |
| Relay.Receive | backend/main.go:84-87 | defines a successful read: the frame stamped with the sender's name is enqueued, and nothing happens once the loop has ended; see ReceiveStampsSender |
| Relay.ReadFail | backend/main.go:72-82 | defines a failed read: the client is deleted from the registry, its leave notice enqueued and its loop ended; see ReadFailAnnouncesLeave and RemovalIsIdempotent |
| Relay.Deliver | backend/main.go:97-105 | defines the writes of one round: the message appended to the inbox of every recipient and no other; see DeliverOneMore and RoundDeliversHead |
| Relay.Round | backend/main.go:92-106 | defines one broadcast round: the head taken off the channel, written to the registered clients whose write succeeds, the failed ones deleted; see RoundDeliversHead |
| Relay.ConnectRegistersFreshClient | backend/main.go:50-66 | Connect registers exactly one new client, gives it an empty connection, changes no other inbox, and enqueues exactly {"join", name + " joined the chat", "System"} |
| Relay.ReceiveStampsSender | backend/main.go:84-87 | a read leaves the registry unchanged and enqueues exactly the frame with type and content kept and the sender's registered name; once the loop has ended it changes nothing |
| Relay.ReadFailAnnouncesLeave | backend/main.go:72-82 | a read failure removes the client, ends its loop, enqueues exactly {"leave", name + " left the chat", "System"}, and a second failure has no effect |
| Relay.RemovalIsIdempotent | backend/main.go:75-103 | deleting an absent client leaves the registry unchanged, whether by read failure (the leave notice is still sent once) or by write failure (a failing unregistered client prunes nothing) |
| Relay.RoundDeliversHead | backend/main.go:92-106 | a round consumes exactly the queue head; every registered client outside writeFails, the sender included, gets it appended; nobody else's inbox changes; the registry becomes the old one minus exactly the failed clients |
| Relay.RoundWaitsOnEmptyQueue | backend/main.go:94 | with an empty queue the broadcaster waits and nothing changes |
| Relay.InitValid | backend/main.go:33-38 | the empty starting state satisfies the invariant |
| Relay.ConnectPreservesValid | backend/main.go:50-66 | Connect keeps the invariant: clients ⊆ running loops ⊆ known clients, identities below nextId, every history well formed |
| Relay.ReceivePreservesValid | backend/main.go:84-87 | Receive keeps the invariant |
| Relay.ReadFailPreservesValid | backend/main.go:72-82 | ReadFail keeps the invariant |
| Relay.RoundPreservesValid | backend/main.go:92-106 | a broadcast round keeps the invariant |
| Relay.StepPreservesValid | backend/main.go:41-107 | every step of either loop keeps the invariant |
| Relay.StepKeepsClient | backend/main.go:41-107 | for an existing client, any step keeps its name; its history only grows; it is never re-registered or restarted; its inbox grows by the consumed message if it stays registered and is unchanged otherwise |
| Relay.RunPreservesValid | backend/main.go:62-87 | in every reachable state, each client's enqueued messages are its join notice, then only frames carrying its registered name, then at most one leave notice, last |
| Relay.StepHistory | backend/main.go:68-88 | one step adds to an existing client's history exactly its own stamped frame when its loop reads one, its leave notice when its loop fails, and nothing otherwise; its name is kept |
| Relay.FramesReadSilent | backend/main.go:82 | a loop that has ended reads no frame in any later run and never runs again |
| Relay.HistoryIsReadOrder | backend/main.go:62-88 | in any interleaved run, a client's history grows by exactly the frames its loop reads while running, stamped with its name, in read order, followed by its leave notice when the loop ends during the run |
| Relay.StepFifo | backend/main.go:87-94 | one step appends what it emits to the back of the queue and takes what it consumes from the front |
| Relay.QueueIsFifo | backend/main.go:62-94 | over any run, the initial queue plus everything enqueued equals everything broadcast, in order, plus what is still queued |
| Relay.NeverReregistered | backend/main.go:51-58 | a deregistered client is never registered again and its inbox never changes again |
| Relay.EndedLoopStaysSilent | backend/main.go:72-88 | once a read loop has ended, it never runs again and enqueues nothing more |
| Relay.HistoryOnlyGrows | backend/main.go:62-87 | what a read loop has enqueued is only ever extended, never reordered or withdrawn |
| Relay.StayingClientReceivesAll | backend/main.go:92-106 | a client registered at the start and end of a run receives everything broadcast meanwhile, its own messages included, in queue order |
| Relay.NextRoundAnnounces | backend/main.go:87-106 | with an empty queue, a message a read loop enqueues is written by the next round to exactly the clients registered after the step whose write does not fail, and those whose write fails are deregistered |
| Relay.Session | backend/main.go:41-106 | in a two-client session, the client that stays sees join, join, chat and leave in order, and the client that left saw its own join notice and its own frame |
| Relay.RunReads | backend/main.go:84-87 | a running loop that reads frames enqueues exactly those frames, stamped, in read order, and changes nothing else |
| Relay.ConnectionLifetime | backend/main.go:41-89 | a whole uninterrupted connection leaves the registry as it was, and adds join notice, stamped frames and leave notice, in that order, to both the queue and the client's history |
| Relay.FreshIdentity | backend/main.go:51 | the next identity belongs to no existing client |
| Backend.Server.constructor | backend/main.go:33-38 | the server starts with an empty registry, an empty channel and no connections |
| Backend.Server.Connect | backend/main.go:50-66 | updating the fields in place is exactly Relay.Connect, and the invariant is kept |
| Backend.Server.Receive | backend/main.go:84-87 | the in-place update is exactly Relay.Receive; the frame is accepted exactly when the client's loop runs |
| Backend.Server.ReadFail | backend/main.go:72-82 | the in-place update is exactly Relay.ReadFail; the failure is handled exactly when the client's loop runs |
| Backend.Server.BroadcastRound | backend/main.go:92-106 | one pass of the broadcast loop is exactly Relay.Round; it runs only when the channel is non-empty |
| Backend.Server.WriteToAll | backend/main.go:97-106 | the loop over the registry, deleting failed clients while it iterates, leaves the registry minus writeFails and appends the message to exactly the other registered clients' inboxes |
| Backend.Server.ReadFrames | backend/main.go:68-87 | the successful reads of a loop are the Run of its Read events, and the loop is still running after them |
| Backend.Server.ReadLoop | backend/main.go:68-88 | a read loop that ends on a read error is the Run of its Read events followed by its ReadError |
| Backend.Server.HandleConnection | backend/main.go:41-89 | one uninterrupted connection is the Run of Join, its reads and ReadError; the registry ends as it was, and the channel gains join notice, stamped frames and leave notice |
| Backend.Server.HandleMessages | backend/main.go:91-108 | the broadcast loop over a sequence of rounds is the Run of the Broadcast events |

## Left out

- Websocket upgrade, JSON encoding and decoding (`ReadJSON` and `WriteJSON`), and `defer ws.Close()` (backend/main.go:43-48, 71, 99). These are the websocket library's I/O. A read's outcome is an event carrying the decoded frame or the error. A write's outcome is membership in `writeFails`. The username comes straight from the query string, so it is a parameter.
- `client.conn.Close()` after a failed write (backend/main.go:102): the model does not close the connection, so a pruned client's read loop may still read frames. In the program those reads would fail sooner. On this point alone the model allows more behaviours than the program.
- Goroutines, `sync.Mutex` and the blocking of the unbuffered channel (backend/main.go:35, 38, 57-59, 74-76, 97-106, 123). The model is sequential: the channel is a FIFO sequence, a send never blocks, and a receive on an empty channel is a step that changes nothing.
- Relay.Connect and Relay.ReadFail each fold the channel send that follows a critical section into the same atomic step: registration (backend/main.go:57-59) with the join send (62), and deletion (74-76) with the leave send (77). Likewise Relay.Round takes the message off the channel (94) and writes it under the lock (97-106) in one step. The program can pause between the two halves, and the model cannot produce every resulting interleaving. Example: A registers and pauses before its send; a round writes M1 to A and to an earlier client C; D registers and its join notice is written to A, C and D; A's join notice follows. A's inbox ends as [M1, join(D), join(A)] and D's as [join(D), join(A)]. In the model, A receiving M1 means Connect(A) ran before that round, so join(A) is queued before join(D). The model therefore fixes an order between a client's join (or leave) notice and other clients' messages that the program does not guarantee. The properties proved hold for the model's interleavings; they are not claimed for these extra interleavings of the program.
- `main`, the HTTP file server, CORS headers, `ListenAndServe` and logging (backend/main.go:110-131): HTTP plumbing.
- The frontend (frontend/chat-app): an Angular UI over a websocket library. It is not part of this model.
- Backend.Server.HandleMessages: runs a given finite number of rounds, `|rounds|`, not the program's endless loop.
- Backend.Server.HandleConnection: covers one connection with nothing interleaved. Interleavings of several connections and the broadcast loop are covered by `Relay.Run` over arbitrary event sequences, not by a method.
- Backend.Server.BroadcastRound: on an empty channel it returns `ran == false` without blocking.
