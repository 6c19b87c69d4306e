/** What one object hands to its channels, taken in by another: the steps the networks are made of. */
module ObjectNetworks {
  import opened Common
  import opened LinkState
  import opened Limits
  import opened RoutingObjects
  import opened GraphObjects
  import opened TransportObjects
  import U = UserBroadcast
  import CachedTable
  import F = Flood

  // ----- a node's channels are its ports -----

  /** With its ports as channels, a node relays to the ports the flood relays to, and sends its own to all. */
  lemma ReceiversAreTargets(t: F.Topology, origin: nat, pk: F.Packet, open: set<nat>)
    requires t.Valid() && pk.port < |t.owner|
    ensures Receivers(t.Ports(t.owner[pk.port]), open, Some(pk.port)) == F.Targets(t, origin, F.Deliver(pk, open))
    ensures Receivers(t.Ports(origin), open, None) == F.Targets(t, origin, F.Originate(open))
  {
  }

  /** What is handed to a channel end is the copy that waits at the other end, and there is one for each. */
  lemma StreamsAreCopies(t: F.Topology, before: Outbox, after: Outbox, to: set<nat>, message: Message, n: nat, q: nat)
    requires t.Valid() && q < |t.owner| && HandedOut(before, after, to, message)
    ensures |Stream(after, t.peer[q])| == |Stream(before, t.peer[q])| + F.Copies(t, to, n)[F.Packet(q, n)]
    ensures F.Copies(t, to, n)[F.Packet(q, n)] == 1 ==>
              Stream(after, t.peer[q]) == Stream(before, t.peer[q]) + [message]
  {
    F.CopiesAre(t, to, n);
  }

  // ----- announcements -----

  /** Two graphs that share no object. */
  ghost predicate Apart(a: Graph, b: Graph)
    reads a, b
  {
    a != b && a.routing != b.routing && a.vertices.Values !! b.vertices.Values
  }

  /**
   One node announces itself, and another is given what came out of channel `out`.  The other
   node takes in just the announcement that was made.
   */
  method HearsAnnouncement(sender: Graph, receiver: Graph, out: Channel, into: Channel)
    returns (thrown: bool, accepted: Result<bool>)
    requires sender.Valid() && LocalReady(sender.model) && receiver.Valid() && LocalReady(receiver.model)
    requires Apart(sender, receiver) && sender.self != receiver.self
    requires out in sender.routing.channels && out in sender.routing.open
    modifies sender`vertices, sender`table, sender`model, sender`stateSequence, sender`announced
    modifies sender.routing`table, sender.routing`outbox, sender.vertices.Values
    modifies receiver`vertices, receiver`table, receiver`model, receiver`stateSequence, receiver`announced
    modifies receiver.routing`table, receiver.routing`outbox, receiver.vertices.Values
    ensures thrown <==> |sender.routing.neighbors.Keys| > MAX_NEIGHBORS
    ensures !thrown ==>
              var s := Announcement(old(sender.model), sender.routing.neighbors.Keys);
              && sender.model == Announce(CachedTable.Direct, old(sender.model), sender.routing.neighbors.Keys)
              && var end := Attempt(CachedTable.Direct, old(receiver.model),
                                    Insert(s, receiver.routing.neighbors.Keys));
              receiver.model == end.local
              && accepted == if end.thrown then Thrown else Ok(!Stale(old(receiver.model), s))
  {
    ghost var s := Announcement(sender.model, sender.routing.neighbors.Keys);
    AnnouncementFits(sender.model, receiver.model, sender.routing.neighbors.Keys);
    SelvesMean(sender);
    SelvesMean(receiver);
    ApartMeans(sender, receiver);
    hide *;
    ghost var h := receiver.model;
    var message;
    thrown, message := Announces(sender, out);
    assert receiver.Valid() && receiver.model == h;
    accepted := Thrown;
    if thrown { return; }
    ghost var g := sender.model;
    accepted := Hears(receiver, message, into, s);
    assert sender.model == g;
  }

  /** The node's announcement, as it comes out of one of its channels. */
  method Announces(sender: Graph, out: Channel) returns (thrown: bool, message: Message)
    requires sender.Valid() && LocalReady(sender.model)
    requires out in sender.routing.channels && out in sender.routing.open
    modifies sender`vertices, sender`table, sender`model, sender`stateSequence, sender`announced
    modifies sender.routing`table, sender.routing`outbox, sender.vertices.Values
    ensures thrown <==> |sender.routing.neighbors.Keys| > MAX_NEIGHBORS
    ensures !thrown ==>
              && sender.model == Announce(CachedTable.Direct, old(sender.model), sender.routing.neighbors.Keys)
              && FromMessage(message) == Some(Announcement(old(sender.model), sender.routing.neighbors.Keys))
  {
    ghost var s := Announcement(sender.model, sender.routing.neighbors.Keys);
    MessageOf(s);
    CrowdedMeans(sender.routing.neighbors.Keys);
    hide *;
    ghost var before := sender.routing.outbox;
    thrown := sender.BroadcastState();
    message := Message(HelloKind, None, None, 0, Empty);
    if !thrown {
      message := LastOn(sender.routing, out, before, s);
    }
  }

  /** A message that is read as `s` is taken in as `s`. */
  method Hears(receiver: Graph, message: Message, into: Channel, ghost s: State) returns (accepted: Result<bool>)
    requires receiver.Valid() && LocalReady(receiver.model) && Receivable(receiver.model, s)
    requires FromMessage(message) == Some(s)
    modifies receiver`vertices, receiver`table, receiver`model, receiver`stateSequence, receiver`announced
    modifies receiver.routing`table, receiver.routing`outbox, receiver.vertices.Values
    ensures var end := Attempt(CachedTable.Direct, old(receiver.model), Insert(s, receiver.routing.neighbors.Keys));
            receiver.model == end.local
            && accepted == if end.thrown then Thrown else Ok(!Stale(old(receiver.model), s))
  {
    ReceptionMeans(receiver.model, s, receiver.routing.neighbors.Keys);
    hide *;
    accepted := receiver.NotifyState(message, into);
  }

  lemma ApartMeans(a: Graph, b: Graph)
    requires Apart(a, b)
    ensures a != b && a.routing != b.routing && a.vertices.Values !! b.vertices.Values
  {
  }

  lemma SelvesMean(g: Graph)
    requires g.Valid()
    ensures g.model.self == g.self
  {
  }

  /** An announcement is of the node itself, so another node can receive it. */
  lemma AnnouncementFits(g: Local, h: Local, neighbors: set<Id>)
    requires LocalReady(g) && LocalReady(h) && g.self != h.self
    ensures Receivable(h, Announcement(g, neighbors))
  {
  }

  lemma ReceptionMeans(g: Local, s: State, neighbors: set<Id>)
    requires Receivable(g, s)
    ensures Reception(g, s, neighbors) == Attempt(CachedTable.Direct, g, Insert(s, neighbors))
  {
  }

  /** The newest message on a channel that was told of an announcement. */
  method LastOn(routing: Routing, c: Channel, ghost before: Outbox, ghost s: State) returns (message: Message)
    requires Told(routing, before, Some(s)) && c in routing.channels && c in routing.open
    ensures message == ToMessage(s)
  {
    ReceiversExactly(routing.channels, routing.open, None, c);
    var stream := Stream(routing.outbox, c);
    assert stream == Stream(before, c) + [ToMessage(s)];
    message := stream[|stream| - 1];
  }

  // ----- user broadcasts -----

  /**
   One node broadcasts, and another is given what came out of channel `out`: its filter sees
   the number that was taken, and its callback gets the payload from that node exactly when it
   passes.
   */
  method HearsBroadcast(sender: Transport, receiver: Transport, payload: seq<int>, out: Channel, into: Channel)
    returns (thrown: bool)
    requires sender != receiver && sender.routing != receiver.routing
    requires out in sender.routing.channels && out in sender.routing.open
    modifies sender`sendSequence, sender.routing`outbox
    modifies receiver`sequences, receiver`received, receiver.routing`outbox
    ensures thrown <==> |payload| > MAX_BODY
    ensures sender.Value() == old(sender.Value()).(sendSequence := sender.sendSequence)
    ensures thrown ==> receiver.Value() == old(receiver.Value()) && receiver.received == old(receiver.received)
    ensures !thrown ==>
              && receiver.Value() == U.Filtered(old(receiver.Value()), sender.self, old(sender.sendSequence))
              && receiver.received == old(receiver.received)
                   + if U.Passes(old(receiver.Value()), sender.self, old(sender.sendSequence))
                     then [(sender.self, Payload(payload))] else []
  {
    ghost var before := sender.routing.outbox;
    var number := sender.sendSequence;
    thrown := sender.Broadcast(payload);
    if !thrown {
      ReceiversExactly(sender.routing.channels, sender.routing.open, None, out);
      var stream := Stream(sender.routing.outbox, out);
      ghost var sent := Message(UserKind, Some(sender.self), None, number, Payload(payload));
      assert stream == Stream(before, out) + [sent];
      var message := stream[|stream| - 1];
      assert message == sent;
      var failed := receiver.Incoming(message, into);
    }
  }
}
