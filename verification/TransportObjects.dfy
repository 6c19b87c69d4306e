/** The transport of user messages: the sequence filter, sending, and the relay of broadcasts. */
module TransportObjects {
  import opened Common
  import opened Sequence
  import opened Limits
  import opened RoutingObjects
  import opened UserBroadcast

  /** What reading an encrypted body comes to: a payload, a foreign key, or an exception. */
  datatype Decrypted = Clear(payload: seq<int>) | ForeignKey | Unreadable

  class Transport {
    const self: Id
    const routing: Routing
    /** How this node reads encrypted bodies. */
    const decrypt: Body -> Decrypted
    var sequences: map<Id, uint32>
    var sendSequence: uint32
    /** What the callback was given. */
    var received: seq<(Id, Body)>

    constructor (self: Id, routing: Routing, decrypt: Body -> Decrypted, start: uint32)
      ensures this.self == self && this.routing == routing && this.decrypt == decrypt
      ensures Value() == Peer(map[], start) && received == []
    {
      this.self, this.routing, this.decrypt := self, routing, decrypt;
      sequences, sendSequence, received := map[], start, [];
    }

    function Value(): Peer
      reads this
    {
      Peer(sequences, sendSequence)
    }

    method CheckSequence(id: Id, sequence: uint32) returns (passed: bool)
      modifies this`sequences
      ensures passed <==> Passes(old(Value()), id, sequence)
      ensures Value() == Filtered(old(Value()), id, sequence)
    {
      if id !in sequences {
        sequences := sequences[id := sequence];
        return true;
      }
      if CompareSequence(sequence, sequences[id]) > 0 {
        sequences := sequences[id := sequence];
        return true;
      }
      passed := false;
    }

    /**
     Sends to every open channel under the next number; the filter is not told.  A payload
     that does not fit throws after its number was taken, and nothing is sent.
     */
    method Broadcast(payload: seq<int>) returns (thrown: bool)
      modifies this`sendSequence, routing`outbox
      ensures thrown <==> |payload| > MAX_BODY
      ensures Value() == old(Value()).(sendSequence := Wrap(old(sendSequence) + 1))
      ensures thrown ==> routing.outbox == old(routing.outbox)
      ensures !thrown ==>
                HandedOut(old(routing.outbox), routing.outbox, Receivers(routing.channels, routing.open, None),
                          Message(UserKind, Some(self), None, old(sendSequence), Payload(payload)))
    {
      var message := Message(UserKind, Some(self), None, sendSequence, Payload(payload));
      sendSequence := Wrap(sendSequence + 1);
      if |payload| > MAX_BODY { return true; }
      routing.Broadcast(message, None);
      thrown := false;
    }

    /** The transport hears of every message of the node: those of other types or without a source are not for it. */
    method Notify(message: Message, from: Channel) returns (thrown: bool)
      modifies this`sequences, this`received, routing`outbox
      ensures var ours := message.kind.UserKind? && message.source.Some?;
              var passed := ours && Passes(old(Value()), message.source.value, message.sequence);
              && Value() == (if ours then Filtered(old(Value()), message.source.value, message.sequence)
                             else old(Value()))
              && thrown == (passed && message.destination.Some? && decrypt(message.body).Unreadable?)
              && (passed && message.destination.None? ==>
                    received == old(received) + [(message.source.value, message.body)])
              && (passed && message.destination.Some? && decrypt(message.body).Clear? ==>
                    received == old(received) + [(message.source.value, Payload(decrypt(message.body).payload))])
              && (!passed || (message.destination.Some? && !decrypt(message.body).Clear?) ==>
                    received == old(received))
              && if passed && message.destination.None?
                 then HandedOut(old(routing.outbox), routing.outbox,
                                Receivers(routing.channels, routing.open, Some(from)), message)
                 else routing.outbox == old(routing.outbox)
    {
      thrown := false;
      if message.kind.UserKind? && message.source.Some? {
        thrown := Incoming(message, from);
      }
    }

    /**
     A message addressed to nobody in particular is relayed and delivered exactly when it
     passes the filter; one with a destination is only delivered, when it also decrypts.
     An unreadable body throws, after the filter has taken the number in.
     */
    method Incoming(message: Message, from: Channel) returns (thrown: bool)
      requires message.destination.Some? ==> message.source.Some?
      modifies this`sequences, this`received, routing`outbox
      ensures var direct := message.destination.Some?;
              var ours := direct || (message.kind.UserKind? && message.source.Some?);
              var passed := ours && Passes(old(Value()), message.source.value, message.sequence);
              && Value() == (if ours then Filtered(old(Value()), message.source.value, message.sequence)
                             else old(Value()))
              && thrown == (passed && direct && decrypt(message.body).Unreadable?)
              && (passed && !direct ==> received == old(received) + [(message.source.value, message.body)])
              && (passed && direct && decrypt(message.body).Clear? ==>
                    received == old(received) + [(message.source.value, Payload(decrypt(message.body).payload))])
              && (!passed || (direct && !decrypt(message.body).Clear?) ==> received == old(received))
              && if passed && !direct
                 then HandedOut(old(routing.outbox), routing.outbox,
                                Receivers(routing.channels, routing.open, Some(from)), message)
                 else routing.outbox == old(routing.outbox)
    {
      thrown := false;
      if message.destination.None? && (!message.kind.UserKind? || message.source.None?) {
        return;
      }
      var id := message.source.value;
      var passed := CheckSequence(id, message.sequence);
      if !passed {
        return;
      }
      if message.destination.Some? {
        match decrypt(message.body) {
          case Clear(payload) => received := received + [(id, Payload(payload))];
          case ForeignKey =>
          case Unreadable => thrown := true;
        }
      } else {
        routing.Broadcast(message, Some(from));
        received := received + [(id, message.body)];
      }
    }
  }

  // ----- what the callback gets over a run -----

  /** A message the transport hears of, and the channel it came by. */
  type Arrival = (Message, Channel)

  /** What of one source is for the transport. */
  function ArrivalsOf(arrivals: seq<Arrival>, id: Id): seq<Message> {
    if arrivals == [] then []
    else
      var m := arrivals[|arrivals| - 1].0;
      ArrivalsOf(arrivals[..|arrivals| - 1], id) + if m.kind.UserKind? && m.source == Some(id) then [m] else []
  }

  function SequencesOf(messages: seq<Message>): seq<uint32> {
    seq(|messages|, i requires 0 <= i < |messages| => messages[i].sequence)
  }

  /** What the callback was given as coming from `id`. */
  function ReceivedFrom(received: seq<(Id, Body)>, id: Id): seq<Body> {
    if received == [] then []
    else
      var last := received[|received| - 1];
      ReceivedFrom(received[..|received| - 1], id) + if last.0 == id then [last.1] else []
  }

  /** What a message that passed brings: its body as it is, or decrypted, or nothing. */
  function BodyOf(decrypt: Body -> Decrypted, m: Message): seq<Body> {
    if m.destination.None? then [m.body]
    else if decrypt(m.body).Clear? then [Payload(decrypt(m.body).payload)]
    else []
  }

  function Bodies(decrypt: Body -> Decrypted, messages: seq<Message>): seq<Body> {
    if messages == [] then []
    else Bodies(decrypt, messages[..|messages| - 1]) + BodyOf(decrypt, messages[|messages| - 1])
  }

  lemma {:induction false} PassesLast(p: Peer, id: Id, sequences: seq<uint32>, s: uint32)
    ensures PassesAll(p, id, sequences + [s])
            == PassesAll(p, id, sequences) + [Passes(FilteredAll(p, id, sequences), id, s)]
    ensures FilteredAll(p, id, sequences + [s]) == Filtered(FilteredAll(p, id, sequences), id, s)
    decreases sequences
  {
    hide Passes, Filtered;
    if sequences == [] {
      assert sequences + [s] == [s] && [s][1..] == [];
    } else {
      assert (sequences + [s])[1..] == sequences[1..] + [s];
      PassesLast(Filtered(p, id, sequences[0]), id, sequences[1..], s);
    }
  }

  lemma {:induction false} PassesLength(p: Peer, id: Id, sequences: seq<uint32>)
    ensures |PassesAll(p, id, sequences)| == |sequences|
    decreases sequences
  {
    if sequences != [] { PassesLength(Filtered(p, id, sequences[0]), id, sequences[1..]); }
  }

  lemma {:induction false} ChosenLast<T>(xs: seq<T>, yes: seq<bool>, x: T, y: bool)
    requires |xs| == |yes|
    ensures Chosen(xs + [x], yes + [y]) == Chosen(xs, yes) + if y then [x] else []
  {
    if xs == [] {
      assert xs + [x] == [x] && yes + [y] == [y] && [x][1..] == [];
    } else {
      assert (xs + [x])[1..] == xs[1..] + [x] && (yes + [y])[1..] == yes[1..] + [y];
      ChosenLast(xs[1..], yes[1..], x, y);
    }
  }

  /** The messages of a source the filter let through. */
  function Passing(p: Peer, id: Id, messages: seq<Message>): seq<Message> {
    PassesLength(p, id, SequencesOf(messages));
    Chosen(messages, PassesAll(p, id, SequencesOf(messages)))
  }

  lemma PassingLast(p: Peer, id: Id, messages: seq<Message>, m: Message)
    ensures Passing(p, id, messages + [m])
            == Passing(p, id, messages)
               + if Passes(FilteredAll(p, id, SequencesOf(messages)), id, m.sequence) then [m] else []
    ensures FilteredAll(p, id, SequencesOf(messages + [m]))
            == Filtered(FilteredAll(p, id, SequencesOf(messages)), id, m.sequence)
  {
    var before := SequencesOf(messages);
    assert SequencesOf(messages + [m]) == before + [m.sequence];
    hide Passes, Filtered;
    PassesLength(p, id, before);
    PassesLast(p, id, before, m.sequence);
    ChosenLast(messages, PassesAll(p, id, before), m, Passes(FilteredAll(p, id, before), id, m.sequence));
  }

  /** The history of one source at one transport, up to some arrival. */
  ghost predicate Heard(decrypt: Body -> Decrypted, before: Peer, got: seq<(Id, Body)>, now: Peer,
                        received: seq<(Id, Body)>, arrivals: seq<Arrival>, id: Id) {
    var messages := ArrivalsOf(arrivals, id);
    && LastOf(now.sequences, id) == LastOf(FilteredAll(before, id, SequencesOf(messages)).sequences, id)
    && ReceivedFrom(received, id) == ReceivedFrom(got, id) + Bodies(decrypt, Passing(before, id, messages))
  }

  /** What one more arrival does to what the callback got from `id`. */
  function Adds(decrypt: Body -> Decrypted, now: Peer, m: Message): seq<(Id, Body)> {
    if !(m.kind.UserKind? && m.source.Some?) || !Passes(now, m.source.value, m.sequence) then []
    else if m.destination.None? then [(m.source.value, m.body)]
    else if decrypt(m.body).Clear? then [(m.source.value, Payload(decrypt(m.body).payload))]
    else []
  }

  lemma ReceivedMore(received: seq<(Id, Body)>, id: Id, more: seq<(Id, Body)>)
    requires |more| <= 1
    ensures ReceivedFrom(received + more, id)
            == ReceivedFrom(received, id) + if |more| == 1 && more[0].0 == id then [more[0].1] else []
  {
    if |more| == 1 {
      assert (received + more)[..|received|] == received;
    } else {
      assert received + more == received;
    }
  }

  /** The filter looks at nothing but what is stored for the source. */
  lemma FilterSame(p: Peer, q: Peer, id: Id, s: uint32)
    requires LastOf(p.sequences, id) == LastOf(q.sequences, id)
    ensures Passes(p, id, s) <==> Passes(q, id, s)
    ensures LastOf(Filtered(p, id, s).sequences, id) == LastOf(Filtered(q, id, s).sequences, id)
  {
  }

  lemma AddsOwn(decrypt: Body -> Decrypted, now: Peer, received: seq<(Id, Body)>, id: Id, m: Message)
    requires m.kind.UserKind? && m.source == Some(id)
    ensures ReceivedFrom(received + Adds(decrypt, now, m), id)
            == ReceivedFrom(received, id) + if Passes(now, id, m.sequence) then BodyOf(decrypt, m) else []
  {
    hide ReceivedFrom, Passes;
    ReceivedMore(received, id, Adds(decrypt, now, m));
  }

  /** A message of the source. */
  lemma HeardOwn(decrypt: Body -> Decrypted, before: Peer, got: seq<(Id, Body)>, now: Peer,
                 received: seq<(Id, Body)>, arrivals: seq<Arrival>, id: Id, a: Arrival)
    requires Heard(decrypt, before, got, now, received, arrivals, id)
    requires a.0.kind.UserKind? && a.0.source == Some(id)
    ensures Heard(decrypt, before, got, Filtered(now, id, a.0.sequence), received + Adds(decrypt, now, a.0),
                  arrivals + [a], id)
  {
    hide ArrivalsOf, ReceivedFrom, SequencesOf, FilteredAll, Passing, Bodies, BodyOf, Adds, Passes, Filtered, LastOf;
    var m, messages := a.0, ArrivalsOf(arrivals, id);
    ArrivalsMore(arrivals, id, a);
    var p, passing := FilteredAll(before, id, SequencesOf(messages)), Passing(before, id, messages);
    PassingLast(before, id, messages, m);
    FilterSame(now, p, id, m.sequence);
    AddsOwn(decrypt, now, received, id, m);
    if Passes(now, id, m.sequence) {
      BodiesLast(decrypt, passing, m);
    } else {
      assert passing + [] == passing;
    }
  }

  lemma ArrivalsMore(arrivals: seq<Arrival>, id: Id, a: Arrival)
    ensures ArrivalsOf(arrivals + [a], id)
            == if a.0.kind.UserKind? && a.0.source == Some(id) then ArrivalsOf(arrivals, id) + [a.0]
               else ArrivalsOf(arrivals, id)
  {
    assert (arrivals + [a])[..|arrivals|] == arrivals;
    assert ArrivalsOf(arrivals, id) + [] == ArrivalsOf(arrivals, id);
  }

  /** It adds nothing to what came from `id`, nor to what the filter stores for it. */
  lemma AddsForOther(decrypt: Body -> Decrypted, now: Peer, received: seq<(Id, Body)>, id: Id, m: Message)
    requires !(m.kind.UserKind? && m.source == Some(id))
    ensures ReceivedFrom(received + Adds(decrypt, now, m), id) == ReceivedFrom(received, id)
    ensures m.kind.UserKind? && m.source.Some? ==>
              LastOf(Filtered(now, m.source.value, m.sequence).sequences, id) == LastOf(now.sequences, id)
  {
    ReceivedMore(received, id, Adds(decrypt, now, m));
    hide ReceivedFrom, Passes;
  }

  lemma BodiesLast(decrypt: Body -> Decrypted, messages: seq<Message>, m: Message)
    ensures Bodies(decrypt, messages + [m]) == Bodies(decrypt, messages) + BodyOf(decrypt, m)
  {
    assert (messages + [m])[..|messages|] == messages;
  }

  /** A message of another source, or one that is not for the transport. */
  lemma HeardOther(decrypt: Body -> Decrypted, before: Peer, got: seq<(Id, Body)>, now: Peer,
                   received: seq<(Id, Body)>, arrivals: seq<Arrival>, id: Id, a: Arrival, now': Peer)
    requires Heard(decrypt, before, got, now, received, arrivals, id)
    requires !(a.0.kind.UserKind? && a.0.source == Some(id))
    requires now' == if a.0.kind.UserKind? && a.0.source.Some? then Filtered(now, a.0.source.value, a.0.sequence)
                     else now
    ensures Heard(decrypt, before, got, now', received + Adds(decrypt, now, a.0), arrivals + [a], id)
  {
    hide ArrivalsOf, ReceivedFrom, SequencesOf, FilteredAll, Passing, Bodies, Adds, Filtered, LastOf;
    ArrivalsMore(arrivals, id, a);
    AddsForOther(decrypt, now, received, id, a.0);
  }

  lemma HeardOneMore(decrypt: Body -> Decrypted, before: Peer, got: seq<(Id, Body)>, now: Peer,
                     received: seq<(Id, Body)>, arrivals: seq<Arrival>, id: Id, a: Arrival, now': Peer)
    requires Heard(decrypt, before, got, now, received, arrivals, id)
    requires now' == if a.0.kind.UserKind? && a.0.source.Some? then Filtered(now, a.0.source.value, a.0.sequence)
                     else now
    ensures Heard(decrypt, before, got, now', received + Adds(decrypt, now, a.0), arrivals + [a], id)
  {
    hide *;
    if a.0.kind.UserKind? && a.0.source == Some(id) {
      HeardOwn(decrypt, before, got, now, received, arrivals, id, a);
    } else {
      HeardOther(decrypt, before, got, now, received, arrivals, id, a, now');
    }
  }

  /**
   A transport hears of a list of messages.  What its callback gets as coming from a source is,
   in order, what the filter lets through of that source's messages.
   */
  method HearAll(transport: Transport, arrivals: seq<Arrival>, ghost id: Id)
    modifies transport`sequences, transport`received, transport.routing`outbox
    ensures Heard(transport.decrypt, old(transport.Value()), old(transport.received), transport.Value(),
                  transport.received, arrivals, id)
  {
    ghost var before, got := transport.Value(), transport.received;
    assert arrivals[..0] == [];
    assert Heard(transport.decrypt, before, got, before, got, arrivals[..0], id);
    for i := 0 to |arrivals|
      invariant Heard(transport.decrypt, before, got, transport.Value(), transport.received, arrivals[..i], id)
    {
      ghost var now, received := transport.Value(), transport.received;
      var thrown := transport.Notify(arrivals[i].0, arrivals[i].1);
      assert transport.received == received + Adds(transport.decrypt, now, arrivals[i].0);
      hide Heard, Adds, Filtered, Passes;
      HeardOneMore(transport.decrypt, before, got, now, received, arrivals[..i], id, arrivals[i], transport.Value());
      assert arrivals[..i] + [arrivals[i]] == arrivals[..i + 1];
    }
    assert arrivals[..|arrivals|] == arrivals;
  }
}
