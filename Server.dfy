/** The relay as the backend runs it: the registry, the broadcast channel and
    the state of every connection are fields of one object that the read
    loops and the broadcast loop update in place. Each method is proved
    against the transition of the same name in `Relay`. */
module Backend {
  import opened Messages
  import Relay

  type ClientId = Relay.ClientId

  class Server {
    var clients: set<ClientId>                  // the registry
    var usernames: map<ClientId, string>        // the username of each client object
    var reading: set<ClientId>                  // clients whose read loop runs
    var broadcast: seq<Message>                 // the broadcast channel, head first
    var inbox: map<ClientId, seq<Message>>      // what was written to each connection
    ghost var sent: map<ClientId, seq<Message>> // what each read loop enqueued
    var nextId: ClientId

    ghost function State(): Relay.State
      reads this
    {
      Relay.State(clients, usernames, reading, broadcast, inbox, sent, nextId)
    }

    ghost predicate Valid()
      reads this
    {
      Relay.Valid(State())
    }

    constructor ()
      ensures Valid() && State() == Relay.Init()
    {
      clients, usernames, reading := {}, map[], {};
      broadcast, inbox, sent, nextId := [], map[], map[], 0;
    }

    /** A new connection: a fresh client is registered and its join notice
        is enqueued. */
    method Connect(username: string) returns (c: ClientId)
      requires Valid()
      modifies this
      ensures Valid()
      ensures (State(), c) == Relay.Connect(old(State()), username)
    {
      c := nextId;
      var join := JoinNotice(username);
      clients, usernames, reading := clients + {c}, usernames[c := username], reading + {c};
      broadcast, inbox, nextId := broadcast + [join], inbox[c := []], c + 1;
      sent := sent[c := [join]];
      Relay.ConnectPreservesValid(old(State()), username);
    }

    /** A successful read on the connection of `c`: the frame is stamped with
        the client's name and enqueued. */
    method Receive(c: ClientId, msg: Message) returns (accepted: bool)
      requires Valid()
      modifies this
      ensures Valid()
      ensures accepted == (c in old(reading)) && reading == old(reading)
      ensures State() == Relay.Receive(old(State()), c, msg)
    {
      accepted := c in reading;
      if accepted {
        var m := Stamp(msg, usernames[c]);
        broadcast := broadcast + [m];
        sent := sent[c := sent[c] + [m]];
      }
      Relay.ReceivePreservesValid(old(State()), c, msg);
    }

    /** A failed read on the connection of `c`: the client is deregistered
        (a no-op if a failed write did so already), its leave notice is
        enqueued and its read loop ends. */
    method ReadFail(c: ClientId) returns (accepted: bool)
      requires Valid()
      modifies this
      ensures Valid()
      ensures accepted == (c in old(reading))
      ensures State() == Relay.ReadFail(old(State()), c)
    {
      accepted := c in reading;
      if accepted {
        clients := clients - {c};
        reading := reading - {c};
        var leave := LeaveNotice(usernames[c]);
        broadcast := broadcast + [leave];
        sent := sent[c := sent[c] + [leave]];
      }
      Relay.ReadFailPreservesValid(old(State()), c);
    }

    /** One round of the broadcast loop: take the head of the channel and
        write it to every registered client. With an empty channel the loop
        waits and nothing happens. */
    method BroadcastRound(writeFails: set<ClientId>) returns (ran: bool)
      requires Valid()
      modifies this
      ensures Valid()
      ensures ran == (old(broadcast) != [])
      ensures State() == Relay.Round(old(State()), writeFails)
    {
      ran := broadcast != [];
      if ran {
        var msg := broadcast[0];
        broadcast := broadcast[1..];
        WriteToAll(msg, writeFails);
        Relay.RoundPreservesValid(old(State()), writeFails);
      }
    }

    /** Writes `msg` to each registered client in turn; a client whose write
        fails (one in `writeFails`) is deleted from the registry, the others
        get the message appended to what their connection received. */
    method WriteToAll(msg: Message, writeFails: set<ClientId>)
      requires clients <= inbox.Keys
      modifies this
      ensures clients == old(clients) - writeFails
      ensures inbox == Relay.Deliver(old(inbox), old(clients) - writeFails, msg)
      ensures broadcast == old(broadcast) && usernames == old(usernames) && reading == old(reading)
      ensures sent == old(sent) && nextId == old(nextId)
    {
      ghost var snapshot, visited := clients, {};
      var remaining := clients;
      while remaining != {}
        invariant visited + remaining == snapshot && visited !! remaining
        invariant snapshot <= old(inbox).Keys
        invariant clients == snapshot - (visited * writeFails)
        invariant inbox == Relay.Deliver(old(inbox), visited - writeFails, msg)
        invariant broadcast == old(broadcast) && usernames == old(usernames) && reading == old(reading)
        invariant sent == old(sent) && nextId == old(nextId)
        decreases remaining
      {
        var c :| c in remaining;
        if c in writeFails {
          assert (visited + {c}) - writeFails == visited - writeFails;
          clients := clients - {c};
        } else {
          Relay.DeliverOneMore(old(inbox), visited - writeFails, c, msg);
          assert (visited + {c}) - writeFails == (visited - writeFails) + {c};
          assert inbox[c] == old(inbox)[c];
          inbox := inbox[c := inbox[c] + [msg]];
        }
        visited, remaining := visited + {c}, remaining - {c};
      }
    }

    /** The whole life of one connection when nothing else happens meanwhile:
        register and announce, then run the read loop over the frames read
        (`inbound`) until the read failure that ends it. */
    method HandleConnection(username: string, inbound: seq<Message>) returns (c: ClientId)
      requires Valid()
      modifies this
      ensures Valid()
      ensures c == old(nextId)
      ensures State() == Relay.Run(old(State()), [Relay.Join(username)] + Relay.Reads(c, inbound) + [Relay.ReadError(c)])
      ensures c !in old(usernames) && clients == old(clients)
      ensures broadcast == old(broadcast) + [JoinNotice(username)] + StampAll(inbound, username) + [LeaveNotice(username)]
    {
      c := Connect(username);
      ReadLoop(c, inbound);
      Relay.JoinThenRead(old(State()), username, inbound);
      Relay.ConnectionLifetime(old(State()), username, inbound);
    }

    /** The read loop of a registered client `c`: stamp and enqueue every
        frame read (`inbound`, in order), and on the read failure that ends
        the loop deregister the client and enqueue its leave notice. */
    method ReadLoop(c: ClientId, inbound: seq<Message>)
      requires Valid()
      requires c in reading
      modifies this
      ensures Valid()
      ensures State() == Relay.Run(old(State()), Relay.Reads(c, inbound) + [Relay.ReadError(c)])
    {
      ReadFrames(c, inbound);
      var ended := ReadFail(c);
      Relay.RunSnoc(old(State()), Relay.Reads(c, inbound), Relay.ReadError(c));
    }

    /** The successful reads of the loop of `c`: each frame of `inbound` in
        turn is stamped and enqueued, and the loop is still running after. */
    method ReadFrames(c: ClientId, inbound: seq<Message>)
      requires Valid()
      requires c in reading
      modifies this
      ensures Valid() && c in reading
      ensures State() == Relay.Run(old(State()), Relay.Reads(c, inbound))
    {
      ghost var start := State();
      var i := 0;
      while i < |inbound|
        invariant 0 <= i <= |inbound|
        invariant Valid() && c in reading
        invariant State() == Relay.Run(start, Relay.Reads(c, inbound[..i]))
      {
        var accepted := Receive(c, inbound[i]);
        Relay.RunOneMoreRead(start, c, inbound, i);
        i := i + 1;
      }
      assert inbound[..i] == inbound;
    }

    /** The broadcast loop for `|rounds|` rounds, the writes in round `i`
        failing exactly for the clients in `rounds[i]`. */
    method HandleMessages(rounds: seq<set<ClientId>>)
      requires Valid()
      modifies this
      ensures Valid()
      ensures State() == Relay.Run(old(State()), Relay.Broadcasts(rounds))
    {
      var i := 0;
      while i < |rounds|
        invariant 0 <= i <= |rounds|
        invariant Valid()
        invariant State() == Relay.Run(old(State()), Relay.Broadcasts(rounds[..i]))
      {
        var ran := BroadcastRound(rounds[i]);
        Relay.RunOneMoreRound(old(State()), rounds, i);
        i := i + 1;
      }
      assert rounds[..i] == rounds;
    }
  }
}
