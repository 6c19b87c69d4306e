/** The channels and neighbours of a node, and what it hands to its channels. */
module RoutingObjects {
  import opened Common
  import opened Sequence
  import opened LinkState

  /** A handle of a channel object. */
  type Channel = nat

  datatype Kind = HelloKind | StateKind | UserKind | OtherKind

  datatype Body = Empty | Claim(key: Key, neighbors: set<Id>) | Payload(bytes: seq<int>)

  datatype Message = Message(kind: Kind, source: Option<Id>, destination: Option<Id>, sequence: uint32, body: Body)

  /** What was handed to each channel so far, in order. */
  type Outbox = map<Channel, seq<Message>>

  function Stream(outbox: Outbox, c: Channel): seq<Message> {
    if c in outbox then outbox[c] else []
  }

  /** A message handed once to every open channel but `from`. */
  ghost predicate HandedOut(before: Outbox, after: Outbox, to: set<Channel>, message: Message) {
    forall c :: Stream(after, c) == Stream(before, c) + if c in to then [message] else []
  }

  function Receivers(channels: set<Channel>, open: set<Channel>, from: Option<Channel>): set<Channel> {
    set c | c in channels && c in open && Some(c) != from
  }

  function WithoutChannel(neighbors: map<Id, Channel>, channel: Channel): map<Id, Channel> {
    map id | id in neighbors && neighbors[id] != channel :: neighbors[id]
  }

  /** A message from `from` goes to the channels that are known, open, and not that one. */
  lemma ReceiversExactly(channels: set<Channel>, open: set<Channel>, from: Option<Channel>, c: Channel)
    ensures c in Receivers(channels, open, from)
            <==> c in channels && c in open && (from.Some? ==> c != from.value)
  {
  }

  class Routing {
    var channels: set<Channel>
    var neighbors: map<Id, Channel>
    var table: Table
    /** Channels that are open; the environment changes it. */
    var open: set<Channel>
    var outbox: Outbox

    constructor ()
      ensures Valid() && channels == {} && neighbors == map[] && table == map[] && outbox == map[]
    {
      channels, neighbors, table, open, outbox := {}, map[], map[], {}, map[];
    }

    /** Every neighbour is reached through a channel of this node. */
    ghost predicate Valid()
      reads this
    {
      neighbors.Values <= channels
    }

    method AddChannel(channel: Channel)
      requires Valid()
      modifies this`channels
      ensures Valid() && channels == old(channels) + {channel}
    {
      channels := channels + {channel};
    }

    /** Drops the channel and every neighbour reached through it; nobody is told. */
    method RemoveChannel(channel: Channel)
      requires Valid()
      modifies this`channels, this`neighbors
      ensures Valid() && channels == old(channels) - {channel}
      ensures neighbors == WithoutChannel(old(neighbors), channel)
      ensures forall id :: id in neighbors <==> id in old(neighbors) && old(neighbors)[id] != channel
      ensures forall id :: id in neighbors ==> neighbors[id] == old(neighbors)[id]
    {
      channels := channels - {channel};
      var rest := neighbors.Keys;
      while rest != {}
        invariant channels == old(channels) - {channel}
        invariant rest <= neighbors.Keys <= old(neighbors).Keys
        invariant forall id :: id in neighbors ==> neighbors[id] == old(neighbors)[id]
        invariant forall id :: id in old(neighbors) ==>
                    (id in neighbors <==> id in rest || old(neighbors)[id] != channel)
      {
        var id :| id in rest;
        if neighbors[id] == channel {
          neighbors := neighbors - {id};
        }
        rest := rest - {id};
      }
      forall v | v in neighbors.Values ensures v in old(channels) && v != channel {
        var id :| id in neighbors && neighbors[id] == v;
        assert old(neighbors)[id] in old(neighbors).Values;
      }
    }

    /** Enters a neighbour, if the channel is known and the neighbour is not; tells whether it did. */
    method AddNeighbor(id: Id, channel: Channel) returns (emitted: bool)
      requires Valid()
      modifies this`neighbors
      ensures Valid()
      ensures emitted <==> channel in channels && id !in old(neighbors)
      ensures neighbors == if emitted then old(neighbors)[id := channel] else old(neighbors)
    {
      emitted := channel in channels && id !in neighbors;
      if emitted {
        neighbors := neighbors[id := channel];
      }
    }

    method RemoveNeighbor(id: Id, channel: Channel) returns (emitted: bool)
      requires Valid()
      modifies this`neighbors
      ensures Valid()
      ensures emitted <==> id in old(neighbors) && old(neighbors)[id] == channel
      ensures neighbors == if emitted then old(neighbors) - {id} else old(neighbors)
    {
      emitted := id in neighbors && neighbors[id] == channel;
      if emitted {
        assert (neighbors - {id}).Values <= neighbors.Values;
        neighbors := neighbors - {id};
      }
    }

    method HasNeighbor(id: Id) returns (has: bool)
      ensures has <==> id in neighbors
    {
      has := id in neighbors;
    }

    method SetTable(table: Table)
      modifies this`table
      ensures this.table == table
    {
      this.table := table;
    }

    /** Hands a message to every open channel but the one it came from. */
    method Broadcast(message: Message, from: Option<Channel>)
      modifies this`outbox
      ensures HandedOut(old(outbox), outbox, Receivers(channels, open, from), message)
      ensures forall c :: Stream(outbox, c)
                == Stream(old(outbox), c)
                   + if c in channels && c in open && (from.Some? ==> c != from.value) then [message] else []
    {
      var rest := channels;
      ghost var done := {};
      while rest != {}
        invariant done + rest == channels && done !! rest
        invariant HandedOut(old(outbox), outbox, Receivers(done, open, from), message)
      {
        var channel :| channel in rest;
        if Some(channel) != from && channel in open {
          outbox := outbox[channel := Stream(outbox, channel) + [message]];
        }
        rest, done := rest - {channel}, done + {channel};
      }
      assert done == channels;
    }

    /** The channel a message for another node leaves by, exactly as the code looks it up. */
    method FindRoute(remote: Id) returns (channel: Option<Channel>)
      ensures channel == RouteAsWritten(table, neighbors, remote)
    {
      if remote !in table {
        return None;
      }
      if remote !in neighbors {
        return None;
      }
      channel := Some(neighbors[remote]);
    }
  }

  function RouteAsWritten(table: Table, neighbors: map<Id, Channel>, remote: Id): Option<Channel> {
    if remote in table && remote in neighbors then Some(neighbors[remote]) else None
  }

  /** The reading its comment suggests: the channel of the next hop. */
  function RouteAsIntended(table: Table, neighbors: map<Id, Channel>, remote: Id): Option<Channel> {
    if remote in table && table[remote] in neighbors then Some(neighbors[table[remote]]) else None
  }
}
