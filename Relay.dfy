/** The relay as a sequential state machine: the registry of connected
    clients, the broadcast queue, the read loop of every client and the
    broadcast loop, each step an atomic transition on a `State` value. */
module Relay {
  import opened Messages

  /** The identity of a `Client` object; every connection gets a new one. */
  type ClientId = nat

  datatype State = State(
    clients: set<ClientId>,                 // the registry: clients a broadcast writes to
    usernames: map<ClientId, string>,       // the username of every client created so far
    reading: set<ClientId>,                 // clients whose read loop still runs
    broadcast: seq<Message>,                // messages handed to the broadcaster, head first
    inbox: map<ClientId, seq<Message>>,     // messages written to each client's connection
    sent: map<ClientId, seq<Message>>,      // messages each client's read loop enqueued, in order
    nextId: ClientId)                       // the identity the next connection receives

  /** The state of a freshly started server. */
  function Init(): State
  {
    State({}, map[], {}, [], map[], map[], 0)
  }

  /** The life of one read loop as seen from outside: it starts with its
      join notice, continues with frames stamped with its own name and, once
      the loop has ended, finishes with its one leave notice. */
  predicate History(h: seq<Message>, username: string, open: bool)
  {
    var last := if open then |h| else |h| - 1;
    && 1 <= last <= |h|
    && h[0] == JoinNotice(username)
    && (forall i :: 1 <= i < last ==> h[i].username == username)
    && (!open ==> h[last] == LeaveNotice(username))
  }

  /** The invariant of every reachable state. */
  ghost predicate Valid(s: State)
  {
    && s.clients <= s.reading
    && s.reading <= s.usernames.Keys
    && s.usernames.Keys == s.inbox.Keys == s.sent.Keys
    && (forall c :: c in s.usernames ==> c < s.nextId)
    && (forall c :: c in s.usernames ==> History(s.sent[c], s.usernames[c], c in s.reading))
  }

  /** True when the read loop of `c` is running. */
  predicate Running(s: State, c: ClientId)
  {
    c in s.reading && c in s.usernames && c in s.sent
  }

  /** A new connection: create a client with a fresh identity, register it,
      then enqueue its join notice. */
  function Connect(s: State, username: string): (State, ClientId)
  {
    var c := s.nextId;
    var join := JoinNotice(username);
    (s.(clients := s.clients + {c},
        usernames := s.usernames[c := username],
        reading := s.reading + {c},
        broadcast := s.broadcast + [join],
        inbox := s.inbox[c := []],
        sent := s.sent[c := [join]],
        nextId := c + 1),
     c)
  }

  /** A successful read by the loop of `c`: stamp the frame with the client's
      name and enqueue it. A loop that has ended reads nothing. */
  function Receive(s: State, c: ClientId, msg: Message): State
  {
    if Running(s, c) then
      var m := Stamp(msg, s.usernames[c]);
      s.(broadcast := s.broadcast + [m], sent := s.sent[c := s.sent[c] + [m]])
    else
      s
  }

  /** A failed read by the loop of `c`: deregister the client (a no-op when a
      failed write already did), enqueue its leave notice, end the loop. */
  function ReadFail(s: State, c: ClientId): State
  {
    if Running(s, c) then
      var leave := LeaveNotice(s.usernames[c]);
      s.(clients := s.clients - {c},
         reading := s.reading - {c},
         broadcast := s.broadcast + [leave],
         sent := s.sent[c := s.sent[c] + [leave]])
    else
      s
  }

  /** Appends `m` to the inbox of every client in `recipients`. */
  function Deliver(inbox: map<ClientId, seq<Message>>, recipients: set<ClientId>, m: Message): map<ClientId, seq<Message>>
  {
    map c | c in inbox :: if c in recipients then inbox[c] + [m] else inbox[c]
  }

  /** One round of the broadcast loop: take the head of the queue and write
      it to every registered client; the clients in `writeFails` are the ones
      whose write fails, and they are deregistered. With an empty queue the
      broadcaster waits and nothing happens. */
  function Round(s: State, writeFails: set<ClientId>): State
  {
    if s.broadcast == [] then
      s
    else
      s.(broadcast := s.broadcast[1..],
         clients := s.clients - writeFails,
         inbox := Deliver(s.inbox, s.clients - writeFails, s.broadcast[0]))
  }

  /** Everything that can happen next, in some interleaving of the read loops
      and the broadcast loop. */
  datatype Event =
    | Join(username: string)
    | Read(client: ClientId, msg: Message)
    | ReadError(client: ClientId)
    | Broadcast(writeFails: set<ClientId>)

  function Step(s: State, e: Event): State
  {
    match e
    case Join(u) => Connect(s, u).0
    case Read(c, msg) => Receive(s, c, msg)
    case ReadError(c) => ReadFail(s, c)
    case Broadcast(w) => Round(s, w)
  }

  function Run(s: State, es: seq<Event>): State
    decreases |es|
  {
    if es == [] then s else Run(Step(s, es[0]), es[1..])
  }

  /** The events of a read loop that reads `frames`, in order. */
  function Reads(c: ClientId, frames: seq<Message>): seq<Event>
  {
    seq(|frames|, i requires 0 <= i < |frames| => Read(c, frames[i]))
  }

  /** The events of `|rounds|` broadcast rounds, the writes in round `i`
      failing for the clients in `rounds[i]`. */
  function Broadcasts(rounds: seq<set<ClientId>>): seq<Event>
  {
    seq(|rounds|, i requires 0 <= i < |rounds| => Broadcast(rounds[i]))
  }

  /** The message a step of a read loop hands to the broadcaster, if any. */
  function Emitted(s: State, e: Event): seq<Message>
  {
    match e
    case Join(u) => [JoinNotice(u)]
    case Read(c, msg) => if Running(s, c) then [Stamp(msg, s.usernames[c])] else []
    case ReadError(c) => if Running(s, c) then [LeaveNotice(s.usernames[c])] else []
    case Broadcast(_) => []
  }

  /** The message a step of the broadcast loop takes off the queue, if any. */
  function Consumed(s: State, e: Event): seq<Message>
  {
    if e.Broadcast? && s.broadcast != [] then [s.broadcast[0]] else []
  }

  /** All messages the read loops enqueue during `es`, in order. */
  function Enqueued(s: State, es: seq<Event>): seq<Message>
    decreases |es|
  {
    if es == [] then [] else Emitted(s, es[0]) + Enqueued(Step(s, es[0]), es[1..])
  }

  /** All messages the broadcaster sends out during `es`, in order. */
  function Broadcasted(s: State, es: seq<Event>): seq<Message>
    decreases |es|
  {
    if es == [] then [] else Consumed(s, es[0]) + Broadcasted(Step(s, es[0]), es[1..])
  }

  // ---------------------------------------------------------------------
  // One transition at a time

  /** Connect registers exactly one client, new to the server, and enqueues
      exactly its join notice. */
  lemma ConnectRegistersFreshClient(s: State, username: string)
    requires Valid(s)
    ensures var (r, c) := Connect(s, username);
      && c !in s.usernames && c !in s.clients
      && r.clients == s.clients + {c}
      && r.usernames[c] == username
      && r.broadcast == s.broadcast + [JoinNotice(username)]
      && r.broadcast[|s.broadcast|] == Message("join", username + " joined the chat", "System")
      && r.inbox[c] == []
      && (forall d :: d in s.inbox ==> d in r.inbox && r.inbox[d] == s.inbox[d])
  {
  }

  /** Receive leaves the registry alone and enqueues the frame with its type
      and text intact and the sender's registered name; after the loop has
      ended it does nothing. */
  lemma ReceiveStampsSender(s: State, c: ClientId, msg: Message)
    requires Valid(s)
    ensures Receive(s, c, msg).clients == s.clients
    ensures c in s.reading ==>
      var m := Receive(s, c, msg).broadcast[|s.broadcast|];
      && Receive(s, c, msg).broadcast == s.broadcast + [m]
      && m.kind == msg.kind && m.content == msg.content
      && m.username == s.usernames[c]
    ensures c !in s.reading ==> Receive(s, c, msg) == s
  {
  }

  /** ReadFail deregisters the client, enqueues exactly its leave notice and
      ends its loop, so that a second failure has no effect. */
  lemma ReadFailAnnouncesLeave(s: State, c: ClientId)
    requires Valid(s)
    requires c in s.reading
    ensures var r := ReadFail(s, c);
      && r.clients == s.clients - {c}
      && c !in r.clients && c !in r.reading
      && r.broadcast == s.broadcast + [LeaveNotice(s.usernames[c])]
      && r.broadcast[|s.broadcast|] == Message("leave", s.usernames[c] + " left the chat", "System")
      && ReadFail(r, c) == r
  {
  }

  /** Deregistering an absent client changes nothing: a read failure after a
      failed write still announces the leave exactly once but leaves the
      registry as it was, and a failed write to a client no longer registered
      prunes nothing. */
  lemma RemovalIsIdempotent(s: State, c: ClientId, writeFails: set<ClientId>)
    requires Valid(s)
    requires c !in s.clients
    ensures ReadFail(s, c).clients == s.clients
    ensures c in s.reading ==> ReadFail(s, c).broadcast == s.broadcast + [LeaveNotice(s.usernames[c])]
    ensures Round(s, writeFails + {c}) == Round(s, writeFails - {c})
  {
    var w1, w2 := writeFails + {c}, writeFails - {c};
    assert s.clients - w1 == s.clients - w2;
  }

  /** A round takes exactly the head of the queue, writes it to every
      registered client outside `writeFails` (the sender included), to no
      one else, and leaves the registry minus exactly the failed clients. */
  lemma RoundDeliversHead(s: State, writeFails: set<ClientId>)
    requires Valid(s)
    requires s.broadcast != []
    ensures var r := Round(s, writeFails);
      && r.broadcast == s.broadcast[1..]
      && r.clients == s.clients - writeFails
      && r.clients <= s.clients
      && r.inbox.Keys == s.inbox.Keys
      && (forall c :: c in s.clients && c !in writeFails ==> r.inbox[c] == s.inbox[c] + [s.broadcast[0]])
      && (forall c :: c in s.inbox && (c !in s.clients || c in writeFails) ==> r.inbox[c] == s.inbox[c])
      && r.sent == s.sent && r.reading == s.reading
  {
  }

  /** On an empty queue the broadcaster waits. */
  lemma RoundWaitsOnEmptyQueue(s: State, writeFails: set<ClientId>)
    requires s.broadcast == []
    ensures Round(s, writeFails) == s
  {
  }

  /** Delivering to one more client extends that client's inbox only. */
  lemma DeliverOneMore(inbox: map<ClientId, seq<Message>>, done: set<ClientId>, c: ClientId, m: Message)
    requires c in inbox && c !in done
    ensures Deliver(inbox, done + {c}, m) == Deliver(inbox, done, m)[c := inbox[c] + [m]]
  {
  }

  lemma ConnectPreservesValid(s: State, username: string)
    requires Valid(s)
    ensures Valid(Connect(s, username).0)
  {
    var r, c := Connect(s, username).0, s.nextId;
    assert History(r.sent[c], username, true);
    forall d | d in r.usernames
      ensures History(r.sent[d], r.usernames[d], d in r.reading)
    {
      if d != c {
        assert r.sent[d] == s.sent[d] && r.usernames[d] == s.usernames[d];
        assert (d in r.reading) == (d in s.reading);
      }
    }
  }

  lemma ReceivePreservesValid(s: State, c: ClientId, msg: Message)
    requires Valid(s)
    ensures Valid(Receive(s, c, msg))
  {
    if Running(s, c) {
      var r := Receive(s, c, msg);
      forall d | d in r.usernames
        ensures History(r.sent[d], r.usernames[d], d in r.reading)
      {
        if d == c {
          HistoryExtends(s.sent[c], s.usernames[c], Stamp(msg, s.usernames[c]));
        }
      }
    }
  }

  lemma ReadFailPreservesValid(s: State, c: ClientId)
    requires Valid(s)
    ensures Valid(ReadFail(s, c))
  {
    if Running(s, c) {
      var r := ReadFail(s, c);
      forall d | d in r.usernames
        ensures History(r.sent[d], r.usernames[d], d in r.reading)
      {
        if d == c {
          HistoryCloses(s.sent[c], s.usernames[c]);
        } else {
          assert (d in r.reading) == (d in s.reading);
        }
      }
    }
  }

  lemma RoundPreservesValid(s: State, writeFails: set<ClientId>)
    requires Valid(s)
    ensures Valid(Round(s, writeFails))
  {
  }

  /** Every step keeps the invariant. */
  lemma StepPreservesValid(s: State, e: Event)
    requires Valid(s)
    ensures Valid(Step(s, e))
  {
    match e
    case Join(u) => ConnectPreservesValid(s, u);
    case Read(c, msg) => ReceivePreservesValid(s, c, msg);
    case ReadError(c) => ReadFailPreservesValid(s, c);
    case Broadcast(w) => RoundPreservesValid(s, w);
  }

  /** What one step does to a client that already exists: it keeps its name,
      its history only grows, it is never registered or started anew, and its
      inbox grows by the message the step broadcast exactly when the client
      stays registered. */
  lemma StepKeepsClient(s: State, e: Event, c: ClientId)
    requires c in s.usernames && c in s.sent && c in s.inbox && c < s.nextId
    ensures var r := Step(s, e);
      && c in r.usernames && c in r.sent && c in r.inbox
      && r.usernames[c] == s.usernames[c]
      && s.sent[c] <= r.sent[c]
      && (c in r.clients ==> c in s.clients)
      && (c in r.reading ==> c in s.reading)
      && (c !in s.reading ==> r.sent[c] == s.sent[c])
      && (c !in s.clients ==> r.inbox[c] == s.inbox[c])
      && (c !in r.clients ==> r.inbox[c] == s.inbox[c])
      && (c in r.clients ==> r.inbox[c] == s.inbox[c] + Consumed(s, e))
  {
    match e
    case Join(u) =>
      assert c != s.nextId;
    case Read(d, msg) =>
      assert Step(s, e) == Receive(s, d, msg);
    case ReadError(d) =>
      assert Step(s, e) == ReadFail(s, d);
    case Broadcast(w) =>
      assert Step(s, e) == Round(s, w);
  }

  lemma HistoryExtends(h: seq<Message>, username: string, m: Message)
    requires History(h, username, true)
    requires m.username == username
    ensures History(h + [m], username, true)
  {
    var h' := h + [m];
    forall i | 1 <= i < |h'|
      ensures h'[i].username == username
    {
      if i < |h| {
        assert h'[i] == h[i];
      }
    }
  }

  lemma HistoryCloses(h: seq<Message>, username: string)
    requires History(h, username, true)
    ensures History(h + [LeaveNotice(username)], username, false)
  {
    var h' := h + [LeaveNotice(username)];
    forall i | 1 <= i < |h'| - 1
      ensures h'[i].username == username
    {
      assert h'[i] == h[i];
    }
  }

  // ---------------------------------------------------------------------
  // Whole runs

  lemma InitValid()
    ensures Valid(Init())
  {
  }

  /** Every run keeps the invariant; in particular, in every reachable state
      the messages each read loop has enqueued start with its join notice,
      go on with its own stamped frames and end with at most one leave
      notice, the last. */
  lemma {:induction false} RunPreservesValid(s: State, es: seq<Event>)
    requires Valid(s)
    ensures Valid(Run(s, es))
    decreases |es|
  {
    if es != [] {
      StepPreservesValid(s, es[0]);
      RunPreservesValid(Step(s, es[0]), es[1..]);
    }
  }

  /** One step appends what it emits and removes what it consumes. */
  lemma StepFifo(s: State, e: Event)
    ensures s.broadcast + Emitted(s, e) == Consumed(s, e) + Step(s, e).broadcast
  {
    match e
    case Broadcast(w) =>
      if s.broadcast != [] {
        assert s.broadcast == [s.broadcast[0]] + s.broadcast[1..];
      }
    case _ =>
  }

  /** The queue is first in, first out: what was queued plus what the read
      loops enqueued is what the broadcaster sent out, in that order,
      followed by what is still queued. */
  lemma {:induction false} QueueIsFifo(s: State, es: seq<Event>)
    ensures s.broadcast + Enqueued(s, es) == Broadcasted(s, es) + Run(s, es).broadcast
    decreases |es|
  {
    if es != [] {
      var e, r := es[0], Step(s, es[0]);
      RunUnfolds(s, es);
      StepFifo(s, e);
      QueueIsFifo(r, es[1..]);
      Regroup(s.broadcast, Emitted(s, e), Enqueued(r, es[1..]),
              Consumed(s, e), r.broadcast, Broadcasted(r, es[1..]), Run(r, es[1..]).broadcast);
    }
  }

  /** Chaining two queue balances: what goes in at the back of one comes out
      at the front of the next. */
  lemma Regroup(queued: seq<Message>, emitted: seq<Message>, later: seq<Message>,
                consumed: seq<Message>, between: seq<Message>, sentLater: seq<Message>, left: seq<Message>)
    requires queued + emitted == consumed + between
    requires between + later == sentLater + left
    ensures queued + (emitted + later) == (consumed + sentLater) + left
  {
    calc {
      queued + (emitted + later);
      (queued + emitted) + later;
      (consumed + between) + later;
      consumed + (between + later);
      consumed + (sentLater + left);
      (consumed + sentLater) + left;
    }
  }

  /** A client that is no longer registered never is again and receives
      nothing more: only a new connection registers, and it gets a new
      identity. */
  lemma {:induction false} NeverReregistered(s: State, es: seq<Event>, c: ClientId)
    requires Valid(s)
    requires c in s.usernames && c !in s.clients
    ensures c !in Run(s, es).clients
    ensures c in Run(s, es).inbox && Run(s, es).inbox[c] == s.inbox[c]
    decreases |es|
  {
    if es != [] {
      var r := Step(s, es[0]);
      StepPreservesValid(s, es[0]);
      StepKeepsClient(s, es[0], c);
      NeverReregistered(r, es[1..], c);
    }
  }

  /** Once a read loop has ended it enqueues nothing more and never runs again. */
  lemma {:induction false} EndedLoopStaysSilent(s: State, es: seq<Event>, c: ClientId)
    requires Valid(s)
    requires c in s.usernames && c !in s.reading
    ensures c !in Run(s, es).reading && c !in Run(s, es).clients
    ensures c in Run(s, es).sent && Run(s, es).sent[c] == s.sent[c]
    decreases |es|
  {
    if es != [] {
      var r := Step(s, es[0]);
      StepPreservesValid(s, es[0]);
      StepKeepsClient(s, es[0], c);
      EndedLoopStaysSilent(r, es[1..], c);
    }
  }

  /** What a read loop has enqueued is never reordered or withdrawn: later
      states only extend it. */
  lemma {:induction false} HistoryOnlyGrows(s: State, es: seq<Event>, c: ClientId)
    requires Valid(s)
    requires c in s.usernames
    ensures c in Run(s, es).sent
    ensures s.sent[c] <= Run(s, es).sent[c]
    decreases |es|
  {
    if es != [] {
      var r := Step(s, es[0]);
      StepPreservesValid(s, es[0]);
      StepKeepsClient(s, es[0], c);
      HistoryOnlyGrows(r, es[1..], c);
    }
  }

  /** The frame the loop of `c` reads in step `e`, if it reads one. */
  function OwnFrame(s: State, e: Event, c: ClientId): seq<Message>
  {
    if e.Read? && e.client == c && Running(s, c) then [e.msg] else []
  }

  /** The frames the loop of `c` reads during `es` while it runs, in order. */
  function FramesRead(s: State, es: seq<Event>, c: ClientId): seq<Message>
    decreases |es|
  {
    if es == [] then [] else OwnFrame(s, es[0], c) + FramesRead(Step(s, es[0]), es[1..], c)
  }

  /** What one step adds to the history of an existing client: its own frame,
      stamped, when its loop reads one, its leave notice when its loop fails,
      and nothing when another client or the broadcaster acts. */
  lemma StepHistory(s: State, e: Event, c: ClientId)
    requires c in s.usernames && c in s.sent && c < s.nextId
    ensures var t, u := Step(s, e), s.usernames[c];
      && c in t.usernames && c in t.sent && c < t.nextId
      && t.usernames[c] == u
      && (c in t.reading <==> c in s.reading && e != ReadError(c))
      && t.sent[c] == s.sent[c] + StampAll(OwnFrame(s, e, c), u)
                      + (if c in s.reading && e == ReadError(c) then [LeaveNotice(u)] else [])
  {
    var u := s.usernames[c];
    assert StampAll([], u) == [];
    match e
    case Join(v) =>
      assert c != s.nextId;
    case Read(d, msg) =>
      if d == c && Running(s, c) {
        assert StampAll([msg], u) == [Stamp(msg, u)];
      }
    case ReadError(d) =>
    case Broadcast(w) =>
  }

  /** An ended loop reads nothing more and never runs again. */
  lemma {:induction false} FramesReadSilent(s: State, es: seq<Event>, c: ClientId)
    requires c in s.usernames && c in s.sent && c < s.nextId && c !in s.reading
    ensures FramesRead(s, es, c) == [] && c !in Run(s, es).reading
    decreases |es|
  {
    if es != [] {
      RunUnfolds(s, es);
      StepHistory(s, es[0], c);
      FramesReadSilent(Step(s, es[0]), es[1..], c);
    }
  }

  /** Whatever the other loops and the broadcaster do meanwhile, a read loop's
      history grows by exactly the frames it reads while it runs, stamped
      with its client's name, in the order read, followed by its leave notice
      when the loop ends during the run. */
  lemma {:induction false} HistoryIsReadOrder(s: State, es: seq<Event>, c: ClientId)
    requires c in s.usernames && c in s.sent && c < s.nextId
    ensures var r, u := Run(s, es), s.usernames[c];
      && c in r.sent
      && r.sent[c] == s.sent[c] + StampAll(FramesRead(s, es, c), u)
                      + (if c in s.reading && c !in r.reading then [LeaveNotice(u)] else [])
    decreases |es|
  {
    var u := s.usernames[c];
    if es == [] {
      assert StampAll([], u) == [];
    } else {
      var e, rest := es[0], es[1..];
      var t := Step(s, e);
      RunUnfolds(s, es);
      StepHistory(s, e, c);
      HistoryIsReadOrder(t, rest, c);
      var own, later := OwnFrame(s, e, c), FramesRead(t, rest, c);
      assert FramesRead(s, es, c) == own + later;
      StampAllAppend(own, later, u);
      if c in s.reading && e == ReadError(c) {
        FramesReadSilent(t, rest, c);
        assert own == [] && later == [];
        assert StampAll([], u) == [];
      } else {
        assert (c in t.reading) == (c in s.reading);
        assert t.sent[c] == s.sent[c] + StampAll(own, u);
        Associative(s.sent[c], StampAll(own, u), StampAll(later, u));
      }
    }
  }

  /** A client registered before and after a run was registered throughout
      and received every message the broadcaster sent out meanwhile, its own
      included, in the order they were queued. */
  lemma {:induction false} StayingClientReceivesAll(s: State, es: seq<Event>, c: ClientId)
    requires Valid(s)
    requires c in s.clients && c in Run(s, es).clients
    ensures c in Run(s, es).inbox
    ensures Run(s, es).inbox[c] == s.inbox[c] + Broadcasted(s, es)
    decreases |es|
  {
    if es != [] {
      var e, rest := es[0], es[1..];
      var r := Step(s, e);
      RunUnfolds(s, es);
      StaysThroughStep(s, e, rest, c);
      StayingClientReceivesAll(r, rest, c);
      Associative(s.inbox[c], Consumed(s, e), Broadcasted(r, rest));
    }
  }

  /** A client registered before a step and at the end of the run that
      follows it was registered after the step too, and received what the
      step broadcast. */
  lemma StaysThroughStep(s: State, e: Event, rest: seq<Event>, c: ClientId)
    requires Valid(s)
    requires c in s.clients && c in Run(Step(s, e), rest).clients
    ensures Valid(Step(s, e))
    ensures c in Step(s, e).clients
    ensures Step(s, e).inbox[c] == s.inbox[c] + Consumed(s, e)
  {
    var r := Step(s, e);
    StepPreservesValid(s, e);
    StepKeepsClient(s, e, c);
    if c !in r.clients {
      NeverReregistered(r, rest, c);
    }
  }

  /** When the queue is empty, a message a read loop enqueues is written by
      the next round to every client registered after the step (its author
      included, when still registered) whose write does not fail, and to no
      one else; the clients whose write fails are deregistered. */
  lemma {:induction false} NextRoundAnnounces(s: State, e: Event, writeFails: set<ClientId>)
    requires s.broadcast == [] && !e.Broadcast? && Emitted(s, e) != []
    ensures var t, r := Step(s, e), Run(s, [e, Broadcast(writeFails)]);
      && r.broadcast == []
      && r.clients == t.clients - writeFails
      && r.usernames == t.usernames && r.reading == t.reading
      && r.nextId == t.nextId && r.sent == t.sent
      && r.inbox.Keys == t.inbox.Keys
      && (forall d :: d in t.inbox ==>
            r.inbox[d] == if d in t.clients - writeFails then t.inbox[d] + Emitted(s, e) else t.inbox[d])
  {
    RunPair(s, e, Broadcast(writeFails));
    var t := Step(s, e);
    StepFifo(s, e);
    assert t.broadcast == Emitted(s, e);
  }

  /** The exchange of a small session: `first` joins, `second` joins, the
      second client sends `frame` (whatever name the frame claims), the second
      client's connection drops, and the broadcaster runs after each step
      without write failures. */
  lemma Session(first: string, second: string, frame: Message)
    ensures var s := Run(Init(), [
        Join(first), Broadcast({}),
        Join(second), Broadcast({}),
        Read(1, frame), Broadcast({}),
        ReadError(1), Broadcast({})]);
      && s.clients == {0}
      && s.broadcast == []
      && 0 in s.inbox && 1 in s.inbox
      && s.inbox[0] == [JoinNotice(first), JoinNotice(second),
                        Stamp(frame, second), LeaveNotice(second)]
      && s.inbox[1] == [JoinNotice(second), Stamp(frame, second)]
  {
    var es1, es2 := [Join(first), Broadcast({})], [Join(second), Broadcast({})];
    var es3, es4 := [Read(1, frame), Broadcast({})], [ReadError(1), Broadcast({})];
    assert es1 + es2 + es3 + es4 == [Join(first), Broadcast({}), Join(second), Broadcast({}),
                                     Read(1, frame), Broadcast({}), ReadError(1), Broadcast({})];
    var s2 := Run(Init(), es1);
    var s4 := Run(s2, es2);
    var s6 := Run(s4, es3);
    SessionFirstJoins(first);
    SessionSecondJoins(s2, first, second);
    SessionSpeaks(s4, first, second, frame);
    SessionDrops(s6, first, second, frame);
    RunAppend(Init(), es1, es2);
    RunAppend(Init(), es1 + es2, es3);
    RunAppend(Init(), es1 + es2 + es3, es4);
  }

  /** `Session`, first pair of steps: client 0 joins and hears itself. */
  lemma SessionFirstJoins(first: string)
    ensures var s := Run(Init(), [Join(first), Broadcast({})]);
      && s.clients == s.reading == {0} && s.broadcast == [] && s.nextId == 1
      && s.usernames.Keys == s.sent.Keys == s.inbox.Keys == {0}
      && s.inbox[0] == [JoinNotice(first)]
  {
    NextRoundAnnounces(Init(), Join(first), {});
  }

  /** `Session`, second pair of steps: client 1 joins and both hear it. */
  lemma SessionSecondJoins(s: State, first: string, second: string)
    requires s.clients == s.reading == {0} && s.broadcast == [] && s.nextId == 1
    requires s.usernames.Keys == s.sent.Keys == s.inbox.Keys == {0}
    requires s.inbox[0] == [JoinNotice(first)]
    ensures var r := Run(s, [Join(second), Broadcast({})]);
      && r.clients == r.reading == {0, 1} && r.broadcast == []
      && r.usernames.Keys == r.sent.Keys == r.inbox.Keys == {0, 1}
      && r.usernames[1] == second
      && r.inbox[0] == [JoinNotice(first), JoinNotice(second)]
      && r.inbox[1] == [JoinNotice(second)]
  {
    NextRoundAnnounces(s, Join(second), {});
  }

  /** `Session`, third pair of steps: client 1 speaks and both hear it
      under client 1's registered name. */
  lemma SessionSpeaks(s: State, first: string, second: string, frame: Message)
    requires s.clients == s.reading == {0, 1} && s.broadcast == []
    requires s.usernames.Keys == s.sent.Keys == s.inbox.Keys == {0, 1}
    requires s.usernames[1] == second
    requires s.inbox[0] == [JoinNotice(first), JoinNotice(second)]
    requires s.inbox[1] == [JoinNotice(second)]
    ensures var r := Run(s, [Read(1, frame), Broadcast({})]);
      && r.clients == r.reading == {0, 1} && r.broadcast == []
      && r.usernames.Keys == r.sent.Keys == r.inbox.Keys == {0, 1}
      && r.usernames[1] == second
      && r.inbox[0] == [JoinNotice(first), JoinNotice(second), Stamp(frame, second)]
      && r.inbox[1] == [JoinNotice(second), Stamp(frame, second)]
  {
    assert Running(s, 1);
    NextRoundAnnounces(s, Read(1, frame), {});
  }

  /** `Session`, last pair of steps: client 1's connection drops; it is
      deregistered and only client 0 hears its leave notice. */
  lemma SessionDrops(s: State, first: string, second: string, frame: Message)
    requires s.clients == s.reading == {0, 1} && s.broadcast == []
    requires s.usernames.Keys == s.sent.Keys == s.inbox.Keys == {0, 1}
    requires s.usernames[1] == second
    requires s.inbox[0] == [JoinNotice(first), JoinNotice(second), Stamp(frame, second)]
    requires s.inbox[1] == [JoinNotice(second), Stamp(frame, second)]
    ensures var r := Run(s, [ReadError(1), Broadcast({})]);
      && r.clients == {0} && r.broadcast == []
      && r.inbox.Keys == {0, 1}
      && r.inbox[0] == [JoinNotice(first), JoinNotice(second), Stamp(frame, second), LeaveNotice(second)]
      && r.inbox[1] == [JoinNotice(second), Stamp(frame, second)]
  {
    assert Running(s, 1);
    assert Emitted(s, ReadError(1)) == [LeaveNotice(second)];
    NextRoundAnnounces(s, ReadError(1), {});
  }

  /** A running read loop that reads `frames` enqueues exactly those frames,
      stamped with its client's name, in the order read, and changes nothing
      else. */
  lemma {:induction false} RunReads(s: State, c: ClientId, frames: seq<Message>)
    requires Running(s, c)
    ensures Run(s, Reads(c, frames))
         == s.(broadcast := s.broadcast + StampAll(frames, s.usernames[c]),
               sent := s.sent[c := s.sent[c] + StampAll(frames, s.usernames[c])])
    decreases |frames|
  {
    var u := s.usernames[c];
    if frames == [] {
      assert s.broadcast + StampAll(frames, u) == s.broadcast;
      assert s.sent[c] + StampAll(frames, u) == s.sent[c];
      assert s.sent[c := s.sent[c]] == s.sent;
    } else {
      var m := Stamp(frames[0], u);
      var r := Receive(s, c, frames[0]);
      assert Reads(c, frames)[1..] == Reads(c, frames[1..]);
      assert Run(s, Reads(c, frames)) == Run(r, Reads(c, frames[1..]));
      RunReads(r, c, frames[1..]);
      assert StampAll(frames, u) == [m] + StampAll(frames[1..], u);
      assert r.broadcast + StampAll(frames[1..], u) == s.broadcast + StampAll(frames, u);
      assert r.sent[c] + StampAll(frames[1..], u) == s.sent[c] + StampAll(frames, u);
    }
  }

  /** The whole life of one connection, when nothing else happens
      meanwhile: the registry ends as it began, and the queue and the
      client's history both gain its join notice, its frames stamped with its
      name in the order read, and its leave notice. */
  lemma ConnectionLifetime(s: State, username: string, frames: seq<Message>)
    requires Valid(s)
    ensures var c := s.nextId;
      var r := Run(s, [Join(username)] + Reads(c, frames) + [ReadError(c)]);
      var life := [JoinNotice(username)] + StampAll(frames, username) + [LeaveNotice(username)];
      && c !in s.usernames
      && r.clients == s.clients && r.reading == s.reading
      && r.broadcast == s.broadcast + life
      && r.usernames == s.usernames[c := username] && r.inbox == s.inbox[c := []]
      && r.sent == s.sent[c := life]
      && r.nextId == s.nextId + 1
  {
    FreshIdentity(s);
    FreshConnectionLifetime(s, username, frames);
  }

  /** `ConnectionLifetime` for any state whose next identity is unused. */
  lemma FreshConnectionLifetime(s: State, username: string, frames: seq<Message>)
    requires s.nextId !in s.usernames && s.nextId !in s.clients && s.nextId !in s.reading
    ensures var c := s.nextId;
      var r := Run(s, [Join(username)] + Reads(c, frames) + [ReadError(c)]);
      var life := [JoinNotice(username)] + StampAll(frames, username) + [LeaveNotice(username)];
      && r.clients == s.clients && r.reading == s.reading
      && r.broadcast == s.broadcast + life
      && r.usernames == s.usernames[c := username] && r.inbox == s.inbox[c := []]
      && r.sent == s.sent[c := life]
      && r.nextId == s.nextId + 1
  {
    var c := s.nextId;
    var t := Connect(s, username).0;
    assert Running(t, c) && t.usernames[c] == username;
    JoinThenRead(s, username, frames);
    RunSnoc(t, Reads(c, frames), ReadError(c));
    ReadsThenFail(t, c, frames);
    assert s.clients + {c} - {c} == s.clients;
    assert s.reading + {c} - {c} == s.reading;
  }

  /** The identity the next connection gets belongs to no client yet. */
  lemma FreshIdentity(s: State)
    requires Valid(s)
    ensures s.nextId !in s.usernames && s.nextId !in s.clients && s.nextId !in s.reading
  {
  }

  /** A running read loop that reads `frames` and then fails enqueues the
      stamped frames and the leave notice, and ends deregistered. */
  lemma ReadsThenFail(s: State, c: ClientId, frames: seq<Message>)
    requires Running(s, c)
    ensures var u := s.usernames[c];
      ReadFail(Run(s, Reads(c, frames)), c)
        == s.(clients := s.clients - {c}, reading := s.reading - {c},
              broadcast := s.broadcast + StampAll(frames, u) + [LeaveNotice(u)],
              sent := s.sent[c := s.sent[c] + StampAll(frames, u) + [LeaveNotice(u)]])
  {
    RunReads(s, c, frames);
  }

  /** A connection's events run from the state its registration produced. */
  lemma JoinThenRead(s: State, username: string, frames: seq<Message>)
    ensures var c := s.nextId;
      Run(s, [Join(username)] + Reads(c, frames) + [ReadError(c)])
        == Run(Connect(s, username).0, Reads(c, frames) + [ReadError(c)])
  {
    var c := s.nextId;
    var tail := Reads(c, frames) + [ReadError(c)];
    RunAppend(s, [Join(username)], tail);
    assert Run(s, [Join(username)]) == Connect(s, username).0 by {
      assert [Join(username)][1..] == [];
    }
    assert [Join(username)] + tail == [Join(username)] + Reads(c, frames) + [ReadError(c)];
  }

  lemma Associative(a: seq<Message>, b: seq<Message>, c: seq<Message>)
    ensures (a + b) + c == a + (b + c)
  {
  }

  /** One step of a run. */
  lemma RunUnfolds(s: State, es: seq<Event>)
    requires es != []
    ensures Run(s, es) == Run(Step(s, es[0]), es[1..])
    ensures Enqueued(s, es) == Emitted(s, es[0]) + Enqueued(Step(s, es[0]), es[1..])
    ensures Broadcasted(s, es) == Consumed(s, es[0]) + Broadcasted(Step(s, es[0]), es[1..])
  {
  }

  /** A run extended by one event ends with that event's step. */
  lemma RunSnoc(s: State, es: seq<Event>, e: Event)
    ensures Run(s, es + [e]) == Step(Run(s, es), e)
  {
    RunAppend(s, es, [e]);
    assert Run(Run(s, es), [e]) == Run(Step(Run(s, es), e), []) by {
      assert [e][1..] == [];
    }
  }

  /** The events of reading one more frame. */
  lemma ReadsSnoc(c: ClientId, frames: seq<Message>, i: nat)
    requires i < |frames|
    ensures Reads(c, frames[..i + 1]) == Reads(c, frames[..i]) + [Read(c, frames[i])]
  {
  }

  /** Reading one more frame runs one more `Receive`. */
  lemma RunOneMoreRead(s: State, c: ClientId, frames: seq<Message>, i: nat)
    requires i < |frames|
    ensures Run(s, Reads(c, frames[..i + 1])) == Receive(Run(s, Reads(c, frames[..i])), c, frames[i])
  {
    ReadsSnoc(c, frames, i);
    RunSnoc(s, Reads(c, frames[..i]), Read(c, frames[i]));
  }

  /** One more broadcast round runs one more `Round`. */
  lemma RunOneMoreRound(s: State, rounds: seq<set<ClientId>>, i: nat)
    requires i < |rounds|
    ensures Run(s, Broadcasts(rounds[..i + 1])) == Round(Run(s, Broadcasts(rounds[..i])), rounds[i])
  {
    BroadcastsSnoc(rounds, i);
    RunSnoc(s, Broadcasts(rounds[..i]), Broadcast(rounds[i]));
  }

  /** The events of one more broadcast round. */
  lemma BroadcastsSnoc(rounds: seq<set<ClientId>>, i: nat)
    requires i < |rounds|
    ensures Broadcasts(rounds[..i + 1]) == Broadcasts(rounds[..i]) + [Broadcast(rounds[i])]
  {
  }

  lemma RunPair(s: State, e1: Event, e2: Event)
    ensures Run(s, [e1, e2]) == Step(Step(s, e1), e2)
  {
    assert [e1, e2][1..] == [e2] && [e2][1..] == [];
    assert Run(s, [e1, e2]) == Run(Step(s, e1), [e2]);
    assert Run(Step(s, e1), [e2]) == Run(Step(Step(s, e1), e2), []);
  }

  /** Running two event sequences one after the other is running their concatenation. */
  lemma {:induction false} RunAppend(s: State, es: seq<Event>, more: seq<Event>)
    ensures Run(s, es + more) == Run(Run(s, es), more)
    decreases |es|
  {
    if es == [] {
      assert es + more == more;
    } else {
      assert (es + more)[1..] == es[1..] + more;
      RunAppend(Step(s, es[0]), es[1..], more);
    }
  }
}
