/**
 Flooding with duplicate suppression, for one origin, on its true (unbounded) counter.
 The floods of different origins do not touch each other, so a network is one of these
 per origin.

 A channel has two ends, its ports.  A node relays a packet it accepts to every port it
 owns but the one the packet came in by.  Whether the origin remembers its own number
 (`record`) is the one difference between the flood of link states and that of user broadcasts.
 */
module Flood {
  import opened Common

  datatype Topology = Topology(nodes: nat, owner: seq<nat>, peer: seq<nat>) {
    ghost predicate Valid() {
      && |owner| == |peer|
      && (forall p :: 0 <= p < |owner| ==> owner[p] < nodes)
      && (forall p :: 0 <= p < |peer| ==> peer[p] < |peer| && peer[p] != p && peer[peer[p]] == p)
    }

    function Ports(u: nat): set<nat> {
      set p | 0 <= p < |owner| && owner[p] == u
    }

    /** The node at the other end of a channel. */
    function Far(p: nat): nat
      requires Valid() && p < |owner|
    {
      owner[peer[p]]
    }
  }

  /** A packet waiting to be read at `port`, carrying what the origin numbered `n`. */
  datatype Packet = Packet(port: nat, n: nat)

  /** `last[v]` is the newest number `v` accepted, or -1. */
  datatype Net = Net(next: nat, last: seq<int>, flight: multiset<Packet>)

  /** `open` holds the ports whose channel is open and does not fail while the step sends. */
  datatype Event =
    | Originate(open: set<nat>)
    | Deliver(packet: Packet, open: set<nat>)
    | Lose(packet: Packet)
    /** The node comes to hold a number without having read a copy of it, so it relays nothing. */
    | Jump(node: nat, n: nat)

  /** No number is seen before the origin has handed it out. */
  ghost predicate Core(t: Topology, origin: nat, net: Net) {
    && t.Valid() && origin < t.nodes && |net.last| == t.nodes
    && (forall v :: 0 <= v < t.nodes ==> -1 <= net.last[v] < net.next)
    && Flies(t, net.flight, net.next)
  }

  function Copies(t: Topology, ports: set<nat>, n: nat): multiset<Packet>
    requires t.Valid()
  {
    multiset(set q | 0 <= q < |t.owner| && t.peer[q] in ports :: Packet(q, n))
  }

  ghost predicate Enabled(net: Net, e: Event) {
    match e
    case Originate(_) => true
    case Deliver(pk, _) => pk in net.flight
    case Lose(pk) => pk in net.flight
    case Jump(v, n) => v < |net.last| && n < net.next && net.last[v] < n
  }

  /** The ports a step sends to, if it sends. */
  function Targets(t: Topology, origin: nat, e: Event): set<nat>
    requires t.Valid() && (e.Deliver? ==> e.packet.port < |t.owner|)
  {
    match e
    case Originate(open) => t.Ports(origin) * open
    case Deliver(pk, open) => (t.Ports(t.owner[pk.port]) - {pk.port}) * open
    case Lose(_) => {}
    case Jump(_, _) => {}
  }

  /** A node accepts what is newer than the newest it accepted. */
  ghost predicate Takes(t: Topology, origin: nat, net: Net, pk: Packet)
    requires Core(t, origin, net) && pk in net.flight
  {
    net.last[t.owner[pk.port]] < pk.n
  }

  ghost function Step(t: Topology, origin: nat, record: bool, net: Net, e: Event): Net
    requires Core(t, origin, net) && Enabled(net, e)
  {
    match e
    case Originate(_) =>
      Net(net.next + 1,
          if record then net.last[origin := net.next] else net.last,
          net.flight + Copies(t, Targets(t, origin, e), net.next))
    case Deliver(pk, _) =>
      var rest := net.flight - multiset{pk};
      if Takes(t, origin, net, pk) then
        Net(net.next, net.last[t.owner[pk.port] := pk.n], rest + Copies(t, Targets(t, origin, e), pk.n))
      else
        net.(flight := rest)
    case Lose(pk) =>
      net.(flight := net.flight - multiset{pk})
    case Jump(v, n) =>
      net.(last := net.last[v := n])
  }

  /** A step on open channels that lose nothing. */
  ghost predicate Reliable(t: Topology, e: Event) {
    (e.Originate? || e.Deliver?) && forall p :: 0 <= p < |t.owner| ==> p in e.open
  }

  /** No node jumps over a number from `base` on, and nothing is lost. */
  ghost predicate Steady(t: Topology, base: nat, e: Event) {
    Reliable(t, e) || (e.Jump? && e.n < base)
  }

  /** The same, but for jumps of the origin itself, which has sent what it jumps over. */
  ghost predicate Harmless(t: Topology, origin: nat, base: nat, e: Event) {
    Steady(t, base, e) || (e.Jump? && e.node == origin)
  }

  lemma CopiesAre(t: Topology, ports: set<nat>, n: nat)
    requires t.Valid()
    ensures var c := Copies(t, ports, n);
            forall pk :: c[pk] == if pk.port < |t.owner| && t.peer[pk.port] in ports && pk.n == n then 1 else 0
  {
    var c := Copies(t, ports, n);
    forall pk: Packet
      ensures c[pk] == if pk.port < |t.owner| && t.peer[pk.port] in ports && pk.n == n then 1 else 0
    {
      assert pk == Packet(pk.port, pk.n);
    }
  }

  /** Every packet in flight is at some port and carries a number that was handed out. */
  ghost predicate Flies(t: Topology, flight: multiset<Packet>, next: nat) {
    forall pk :: pk in flight ==> pk.port < |t.owner| && pk.n < next
  }

  lemma SendKeepsFlight(t: Topology, flight: multiset<Packet>, ports: set<nat>, n: nat, next: nat)
    requires t.Valid() && n < next && Flies(t, flight, next)
    ensures Flies(t, flight + Copies(t, ports, n), next)
  {
    CopiesAre(t, ports, n);
    hide Copies;
  }

  lemma ReadKeepsFlight(t: Topology, flight: multiset<Packet>, pk: Packet, next: nat)
    requires Flies(t, flight, next)
    ensures Flies(t, flight - multiset{pk}, next) && Flies(t, flight, next + 1)
  {
  }

  lemma StepKeepsCore(t: Topology, origin: nat, record: bool, net: Net, e: Event)
    requires Core(t, origin, net) && Enabled(net, e)
    ensures Core(t, origin, Step(t, origin, record, net, e))
  {
    hide Copies, Targets, Flies;
    match e {
      case Originate(_) =>
        ReadKeepsFlight(t, net.flight, Packet(0, 0), net.next);
        SendKeepsFlight(t, net.flight, Targets(t, origin, e), net.next, net.next + 1);
      case Deliver(pk, _) =>
        PacketFlies(t, net.flight, pk, net.next);
        ReadKeepsFlight(t, net.flight, pk, net.next);
        SendKeepsFlight(t, net.flight - multiset{pk}, Targets(t, origin, e), pk.n, net.next);
      case Lose(pk) =>
        ReadKeepsFlight(t, net.flight, pk, net.next);
      case Jump(_, _) =>
    }
  }

  lemma PacketFlies(t: Topology, flight: multiset<Packet>, pk: Packet, next: nat)
    requires Flies(t, flight, next) && pk in flight
    ensures pk.port < |t.owner| && pk.n < next
  {
  }

  /** What a delivery does to the numbers the nodes hold. */
  lemma DeliveryMeans(t: Topology, origin: nat, record: bool, net: Net, e: Event)
    requires Core(t, origin, net) && Enabled(net, e) && e.Deliver?
    ensures var net', v := Step(t, origin, record, net, e), t.owner[e.packet.port];
            && v < t.nodes && net'.next == net.next && e.packet.n < net.next
            && net'.last == if Takes(t, origin, net, e.packet) then net.last[v := e.packet.n] else net.last
  {
    hide Copies;
  }

  // ----- what every step keeps: news is never stuck -----

  /** The newest number that `u` has seen: as a receiver, or as the origin. */
  ghost function Known(t: Topology, origin: nat, net: Net, u: nat): int
    requires |net.last| == t.nodes && u < t.nodes
  {
    if u == origin then net.next - 1 else net.last[u]
  }

  /** Whoever sent a copy knows at least what it sent. */
  ghost predicate SendersKnow(t: Topology, origin: nat, base: nat, net: Net)
    requires Core(t, origin, net)
  {
    forall pk :: pk in net.flight && base <= pk.n ==> Known(t, origin, net, t.Far(pk.port)) >= pk.n
  }

  /** Across the channel at port `p`: the far end knows as much, or is about to. */
  ghost predicate Flowing(t: Topology, origin: nat, base: nat, net: Net, p: nat)
    requires Core(t, origin, net) && p < |t.owner|
  {
    var k := Known(t, origin, net, t.owner[p]);
    base <= k ==> Known(t, origin, net, t.Far(p)) >= k || Packet(t.peer[p], k) in net.flight
  }

  ghost predicate Covering(t: Topology, origin: nat, base: nat, net: Net) {
    && Core(t, origin, net)
    && SendersKnow(t, origin, base, net)
    && forall p :: 0 <= p < |t.owner| ==> Flowing(t, origin, base, net, p)
  }

  /** Numbers handed out before a moment put no demand on the channels present from then on. */
  lemma StartCovers(t: Topology, origin: nat, net: Net)
    requires Core(t, origin, net)
    ensures Covering(t, origin, net.next, net)
  {
  }

  lemma OriginateKeepsFlow(t: Topology, origin: nat, record: bool, base: nat, net: Net, e: Event)
    requires Covering(t, origin, base, net) && e.Originate? && Reliable(t, e)
    ensures Covering(t, origin, base, Step(t, origin, record, net, e))
  {
    var net' := Step(t, origin, record, net, e);
    StepKeepsCore(t, origin, record, net, e);
    CopiesAre(t, Targets(t, origin, e), net.next);
    forall p | 0 <= p < |t.owner| ensures Flowing(t, origin, base, net', p) {
      assert Flowing(t, origin, base, net, p);
    }
  }

  lemma DeliverKeepsSenders(t: Topology, origin: nat, record: bool, base: nat, net: Net, e: Event)
    requires Covering(t, origin, base, net) && Enabled(net, e) && e.Deliver?
    ensures var net' := Step(t, origin, record, net, e);
            Core(t, origin, net') && SendersKnow(t, origin, base, net')
  {
    StepKeepsCore(t, origin, record, net, e);
    CopiesAre(t, Targets(t, origin, e), e.packet.n);
  }

  /** How many copies of one packet a delivery leaves in flight. */
  lemma FlightAfterDelivery(t: Topology, origin: nat, record: bool, net: Net, e: Event, pk: Packet)
    requires Core(t, origin, net) && Enabled(net, e) && e.Deliver? && pk.port < |t.owner|
    ensures var sent := Takes(t, origin, net, e.packet) && pk.n == e.packet.n
                        && t.peer[pk.port] in Targets(t, origin, e);
            Step(t, origin, record, net, e).flight[pk]
            == net.flight[pk] - (if pk == e.packet then 1 else 0) + (if sent then 1 else 0)
  {
    CopiesAre(t, Targets(t, origin, e), e.packet.n);
  }

  /**
   The delivery of `d` to node `w`, seen across one channel: either this channel carried
   `d`, or `w` is at its near end and sends on, or nothing changes here.
   */
  lemma DeliverKeepsFlowing(t: Topology, origin: nat, record: bool, base: nat, net: Net, e: Event, p: nat)
    requires Covering(t, origin, base, net) && Enabled(net, e) && e.Deliver? && Reliable(t, e) && p < |t.owner|
    requires Core(t, origin, Step(t, origin, record, net, e))
    ensures Flowing(t, origin, base, Step(t, origin, record, net, e), p)
  {
    var net', d := Step(t, origin, record, net, e), e.packet;
    var k' := Known(t, origin, net', t.owner[p]);
    assert Flowing(t, origin, base, net, p);
    if base <= k' {
      var pk := Packet(t.peer[p], k');
      FlightAfterDelivery(t, origin, record, net, e, pk);
      assert t.peer[t.peer[p]] == p;
    }
  }

  lemma DeliverKeepsFlow(t: Topology, origin: nat, record: bool, base: nat, net: Net, e: Event)
    requires Covering(t, origin, base, net) && Enabled(net, e) && e.Deliver? && Reliable(t, e)
    ensures Covering(t, origin, base, Step(t, origin, record, net, e))
  {
    DeliverKeepsSenders(t, origin, record, base, net, e);
    forall p | 0 <= p < |t.owner| ensures Flowing(t, origin, base, Step(t, origin, record, net, e), p) {
      DeliverKeepsFlowing(t, origin, record, base, net, e, p);
    }
  }

  /** Holding an older number puts no demand on anyone. */
  lemma JumpKeepsFlow(t: Topology, origin: nat, record: bool, base: nat, net: Net, e: Event)
    requires Covering(t, origin, base, net) && Enabled(net, e) && e.Jump? && (e.n < base || e.node == origin)
    ensures Covering(t, origin, base, Step(t, origin, record, net, e))
  {
    StepKeepsCore(t, origin, record, net, e);
    forall p | 0 <= p < |t.owner| ensures Flowing(t, origin, base, Step(t, origin, record, net, e), p) {
      assert Flowing(t, origin, base, net, p);
    }
  }

  lemma StepKeepsCovering(t: Topology, origin: nat, record: bool, base: nat, net: Net, e: Event)
    requires Covering(t, origin, base, net) && Enabled(net, e) && Harmless(t, origin, base, e)
    ensures Covering(t, origin, base, Step(t, origin, record, net, e))
  {
    if e.Originate? {
      OriginateKeepsFlow(t, origin, record, base, net, e);
    } else if e.Jump? {
      JumpKeepsFlow(t, origin, record, base, net, e);
    } else {
      DeliverKeepsFlow(t, origin, record, base, net, e);
    }
  }

  // ----- whole runs -----

  ghost predicate Reaches(t: Topology, origin: nat, record: bool, net: Net, events: seq<Event>, final: Net)
    requires Core(t, origin, net)
    decreases events
  {
    if events == [] then final == net
    else
      && Enabled(net, events[0])
      && (StepKeepsCore(t, origin, record, net, events[0]);
          Reaches(t, origin, record, Step(t, origin, record, net, events[0]), events[1..], final))
  }

  lemma {:induction false} RunCovers(t: Topology, origin: nat, record: bool, base: nat,
                                     net: Net, events: seq<Event>, final: Net)
    requires Covering(t, origin, base, net) && Reaches(t, origin, record, net, events, final)
    requires forall e :: e in events ==> Harmless(t, origin, base, e)
    ensures Covering(t, origin, base, final)
    decreases events
  {
    if events != [] {
      StepKeepsCovering(t, origin, record, base, net, events[0]);
      RunCovers(t, origin, record, base, Step(t, origin, record, net, events[0]), events[1..], final);
    }
  }

  /** A walk along channels: each port's far end owns the next port. */
  ghost predicate Linked(t: Topology, u: nat, ports: seq<nat>, v: nat)
    requires t.Valid()
    decreases ports
  {
    if ports == [] then u == v
    else ports[0] < |t.owner| && t.owner[ports[0]] == u && Linked(t, t.Far(ports[0]), ports[1..], v)
  }

  ghost predicate Connected(t: Topology, u: nat, v: nat)
    requires t.Valid()
  {
    exists ports :: Linked(t, u, ports, v)
  }

  lemma {:induction false} QuietSpreads(t: Topology, origin: nat, base: nat, net: Net, u: nat, ports: seq<nat>, v: nat)
    requires Covering(t, origin, base, net) && u < t.nodes && Linked(t, u, ports, v)
    requires net.flight == multiset{} && base <= Known(t, origin, net, u)
    ensures v < t.nodes && Known(t, origin, net, v) >= Known(t, origin, net, u)
    decreases ports
  {
    if ports != [] {
      assert Flowing(t, origin, base, net, ports[0]);
      QuietSpreads(t, origin, base, net, t.Far(ports[0]), ports[1..], v);
    }
  }

  /**
   Coverage.  Whatever the network held when the channels became fixed, in whatever order
   copies arrive: once the origin has sent something new and nothing of it is in flight,
   every other node connected to the origin holds the newest number, unless one jumped over
   a number sent since.
   */
  lemma Coverage(t: Topology, origin: nat, record: bool, net: Net, events: seq<Event>, final: Net, v: nat)
    requires Core(t, origin, net) && Reaches(t, origin, record, net, events, final)
    requires forall e :: e in events ==> Harmless(t, origin, net.next, e)
    requires net.next < final.next && final.flight == multiset{}
    requires Connected(t, origin, v) && v != origin
    ensures v < t.nodes && |final.last| == t.nodes && final.last[v] == final.next - 1
  {
    StartCovers(t, origin, net);
    RunCovers(t, origin, record, net.next, net, events, final);
    var ports :| Linked(t, origin, ports, v);
    QuietSpreads(t, origin, net.next, final, origin, ports, v);
  }

  // ----- what one number costs -----

  /** History of one number: copies put on channels, copies consumed, nodes that accepted it. */
  datatype Tally = Tally(cost: nat, consumed: nat, took: set<nat>)

  ghost function Count(t: Topology, origin: nat, net: Net, e: Event, n: nat, y: Tally): Tally
    requires Core(t, origin, net) && Enabled(net, e)
  {
    match e
    case Originate(_) => if net.next == n then y.(cost := y.cost + |Targets(t, origin, e)|) else y
    case Deliver(pk, _) =>
      if pk.n != n then y
      else if Takes(t, origin, net, pk) then
        Tally(y.cost + |Targets(t, origin, e)|, y.consumed + 1, y.took + {t.owner[pk.port]})
      else y.(consumed := y.consumed + 1)
    case Lose(pk) => if pk.n == n then y.(consumed := y.consumed + 1) else y
    case Jump(_, _) => y
  }

  /** What the nodes below `k` in `who` pay to relay once. */
  ghost function Relays(t: Topology, who: set<nat>, k: nat): int {
    if k == 0 then 0 else Relays(t, who, k - 1) + if k - 1 in who then |t.Ports(k - 1)| - 1 else 0
  }

  lemma {:induction false} RelaysAdd(t: Topology, who: set<nat>, v: nat, k: nat)
    requires v !in who
    ensures Relays(t, who + {v}, k) == Relays(t, who, k) + if v < k then |t.Ports(v)| - 1 else 0
  {
    if k > 0 {
      RelaysAdd(t, who, v, k - 1);
    }
  }

  /** Every acceptance of `n` is remembered, and the cost so far is at most what it allows. */
  ghost predicate Counted(t: Topology, origin: nat, record: bool, net: Net, n: nat, y: Tally) {
    && Core(t, origin, net)
    && (forall v :: v in y.took ==> v < t.nodes && n <= net.last[v])
    && (record ==> origin !in y.took && (n < net.next ==> n <= net.last[origin]))
    && y.cost <= Relays(t, y.took, t.nodes) + (if n < net.next then |t.Ports(origin)| else 0)
  }

  lemma DeliverKeepsCounted(t: Topology, origin: nat, record: bool, net: Net, e: Event, n: nat, y: Tally)
    requires Counted(t, origin, record, net, n, y) && Enabled(net, e) && e.Deliver?
    requires Core(t, origin, Step(t, origin, record, net, e))
    ensures Counted(t, origin, record, Step(t, origin, record, net, e), n, Count(t, origin, net, e, n, y))
  {
    DeliveryMeans(t, origin, record, net, e);
    var v := t.owner[e.packet.port];
    if e.packet.n == n && Takes(t, origin, net, e.packet) {
      RelaysAdd(t, y.took, v, t.nodes);
      RelayTargets(t, origin, e);
    }
    hide Copies, Relays, Core, Step, Targets;
  }

  /** A relay goes to at most every port but the one the copy came in by. */
  lemma RelayTargets(t: Topology, origin: nat, e: Event)
    requires t.Valid() && e.Deliver? && e.packet.port < |t.owner|
    ensures var ports := t.Ports(t.owner[e.packet.port]);
            && |Targets(t, origin, e)| <= |ports| - 1
            && (Reliable(t, e) ==> |Targets(t, origin, e)| == |ports| - 1)
  {
    var ports := t.Ports(t.owner[e.packet.port]);
    assert e.packet.port in ports;
    assert |ports - {e.packet.port}| == |ports| - 1;
    SubsetSize((ports - {e.packet.port}) * e.open, ports - {e.packet.port});
    if Reliable(t, e) {
      AllOpen(t, e.open, ports - {e.packet.port});
    }
  }

  lemma StepKeepsCounted(t: Topology, origin: nat, record: bool, net: Net, e: Event, n: nat, y: Tally)
    requires Counted(t, origin, record, net, n, y) && Enabled(net, e)
    ensures Counted(t, origin, record, Step(t, origin, record, net, e), n, Count(t, origin, net, e, n, y))
  {
    StepKeepsCore(t, origin, record, net, e);
    if e.Originate? {
      SubsetSize(t.Ports(origin) * e.open, t.Ports(origin));
    } else if e.Deliver? {
      DeliverKeepsCounted(t, origin, record, net, e, n, y);
    }
  }

  ghost function CountRun(t: Topology, origin: nat, record: bool, net: Net, events: seq<Event>, final: Net,
                          n: nat, y: Tally): Tally
    requires Core(t, origin, net) && Reaches(t, origin, record, net, events, final)
    decreases events
  {
    if events == [] then y
    else
      StepKeepsCore(t, origin, record, net, events[0]);
      CountRun(t, origin, record, Step(t, origin, record, net, events[0]), events[1..], final,
               n, Count(t, origin, net, events[0], n, y))
  }

  lemma {:induction false} RunCounted(t: Topology, origin: nat, record: bool, net: Net, events: seq<Event>, final: Net,
                                      n: nat, y: Tally)
    requires Counted(t, origin, record, net, n, y) && Reaches(t, origin, record, net, events, final)
    ensures Counted(t, origin, record, final, n, CountRun(t, origin, record, net, events, final, n, y))
    decreases events
  {
    if events != [] {
      StepKeepsCounted(t, origin, record, net, events[0], n, y);
      RunCounted(t, origin, record, Step(t, origin, record, net, events[0]), events[1..], final,
                 n, Count(t, origin, net, events[0], n, y));
    }
  }

  /** Ports owned by the nodes below `k`. */
  ghost function PortsBelow(t: Topology, k: nat): set<nat> {
    set p | 0 <= p < |t.owner| && t.owner[p] < k
  }

  lemma {:induction false} RelaysBounded(t: Topology, who: set<nat>, k: nat)
    requires forall v :: 0 <= v < k ==> t.Ports(v) != {}
    ensures Relays(t, who, k) <= |PortsBelow(t, k)| - k
  {
    if k == 0 {
      assert PortsBelow(t, 0) == {};
    } else {
      RelaysBounded(t, who, k - 1);
      assert PortsBelow(t, k) == PortsBelow(t, k - 1) + t.Ports(k - 1);
      assert PortsBelow(t, k - 1) !! t.Ports(k - 1);
    }
  }

  ghost function PortsUpTo(t: Topology, k: nat): set<nat>
    requires k <= |t.owner|
  {
    set p | 0 <= p < k && t.owner[p] < t.nodes
  }

  lemma {:induction false} AllPortsCount(t: Topology, k: nat)
    requires t.Valid() && k <= |t.owner|
    ensures |PortsUpTo(t, k)| == k
  {
    if k == 0 {
      assert PortsUpTo(t, 0) == {};
    } else {
      AllPortsCount(t, k - 1);
      assert PortsUpTo(t, k) == PortsUpTo(t, k - 1) + {k - 1};
    }
  }

  /** Number of channels, each with two ports. */
  ghost predicate Channels(t: Topology, channels: nat) {
    |t.owner| == 2 * channels
  }

  /**
   Cost.  On a network of `nodes` nodes, each with a channel, over any run with losses and
   closed channels: the copies ever sent of one number are at most 2E - n + 1 when the
   origin remembers its own numbers, and at most 2E - n + deg(origin) when it does not.
   */
  lemma SendBound(t: Topology, origin: nat, record: bool, net: Net, events: seq<Event>, final: Net, n: nat,
                  channels: nat)
    requires Core(t, origin, net) && Reaches(t, origin, record, net, events, final)
    requires net.next <= n && Channels(t, channels)
    requires forall v :: 0 <= v < t.nodes ==> t.Ports(v) != {}
    ensures CountRun(t, origin, record, net, events, final, n, Tally(0, 0, {})).cost
            <= 2 * channels - t.nodes + (if record then 1 else |t.Ports(origin)|)
  {
    var y := CountRun(t, origin, record, net, events, final, n, Tally(0, 0, {}));
    RelaysBounded(t, {}, t.nodes);
    assert Counted(t, origin, record, net, n, Tally(0, 0, {})) by {
      NoRelays(t, t.nodes);
    }
    RunCounted(t, origin, record, net, events, final, n, Tally(0, 0, {}));
    AllPortsCount(t, |t.owner|);
    assert PortsBelow(t, t.nodes) == PortsUpTo(t, |t.owner|);
    if record {
      RelaysAdd(t, y.took, origin, t.nodes);
      RelaysBounded(t, y.took + {origin}, t.nodes);
    } else {
      RelaysBounded(t, y.took, t.nodes);
    }
  }

  lemma {:induction false} NoRelays(t: Topology, k: nat)
    ensures Relays(t, {}, k) == 0
  {
    if k > 0 {
      NoRelays(t, k - 1);
    }
  }

  // ----- what one number costs exactly, when it is the last and nothing is lost -----

  /** Who took `n` is who holds it, but for an origin that recorded it. */
  ghost predicate Holders(t: Topology, origin: nat, record: bool, last: seq<int>, n: nat, took: set<nat>) {
    && |last| == t.nodes && (forall v :: v in took ==> v < t.nodes)
    && (forall v :: 0 <= v < t.nodes && !(record && v == origin) ==> (v in took <==> last[v] == n))
    && (record ==> origin !in took)
  }

  /** Who took `n` is who has it now, and the cost so far is what that comes to. */
  ghost predicate Settles(t: Topology, origin: nat, record: bool, net: Net, n: nat, y: Tally) {
    && Core(t, origin, net) && net.next <= n + 1
    && Holders(t, origin, record, net.last, n, y.took)
    && (record && n < net.next ==> net.last[origin] == n)
    && y.cost == Relays(t, y.took, t.nodes) + (if n < net.next then |t.Ports(origin)| else 0)
  }

  lemma MoreHolders(t: Topology, origin: nat, record: bool, last: seq<int>, n: nat, took: set<nat>, v: nat, k: int)
    requires Holders(t, origin, record, last, n, took) && v < t.nodes
    requires k == n ==> !(record && v == origin)
    requires k != n ==> v !in took || (record && v == origin)
    ensures Holders(t, origin, record, last[v := k], n, if k == n then took + {v} else took)
  {
  }

  lemma AllOpen(t: Topology, open: set<nat>, ports: set<nat>)
    requires forall p :: 0 <= p < |t.owner| ==> p in open
    requires forall p :: p in ports ==> p < |t.owner|
    ensures ports * open == ports
  {
  }

  lemma DeliverSettles(t: Topology, origin: nat, record: bool, net: Net, e: Event, n: nat, y: Tally)
    requires Settles(t, origin, record, net, n, y) && Enabled(net, e) && e.Deliver? && Reliable(t, e)
    requires Core(t, origin, Step(t, origin, record, net, e))
    ensures Settles(t, origin, record, Step(t, origin, record, net, e), n, Count(t, origin, net, e, n, y))
  {
    DeliveryMeans(t, origin, record, net, e);
    var v := t.owner[e.packet.port];
    if Takes(t, origin, net, e.packet) {
      NotYetHolder(t, origin, record, net, n, y, v, e.packet.n);
      hide Holders;
      MoreHolders(t, origin, record, net.last, n, y.took, v, e.packet.n);
      RelaysAdd(t, y.took, v, t.nodes);
      RelayTargets(t, origin, e);
    }
    hide Copies, Relays, Core, Step, Targets, Reliable, Holders;
  }

  /** Whoever accepts a number held an older one. */
  lemma NotYetHolder(t: Topology, origin: nat, record: bool, net: Net, n: nat, y: Tally, v: nat, k: nat)
    requires Settles(t, origin, record, net, n, y) && v < t.nodes && net.last[v] < k < net.next
    ensures v !in y.took && (k == n ==> !(record && v == origin))
  {
  }

  lemma OriginateSettles(t: Topology, origin: nat, record: bool, net: Net, e: Event, n: nat, y: Tally)
    requires Settles(t, origin, record, net, n, y) && e.Originate? && Reliable(t, e) && net.next <= n
    requires Core(t, origin, Step(t, origin, record, net, e))
    ensures Settles(t, origin, record, Step(t, origin, record, net, e), n, Count(t, origin, net, e, n, y))
  {
    AllOpen(t, e.open, t.Ports(origin));
    hide Copies, Relays;
  }

  lemma JumpSettles(t: Topology, origin: nat, record: bool, net: Net, e: Event, n: nat, y: Tally)
    requires Settles(t, origin, record, net, n, y) && Enabled(net, e) && e.Jump? && e.n < n
    requires Core(t, origin, Step(t, origin, record, net, e))
    ensures Settles(t, origin, record, Step(t, origin, record, net, e), n, Count(t, origin, net, e, n, y))
  {
    hide Copies, Relays;
  }

  lemma StepSettles(t: Topology, origin: nat, record: bool, net: Net, e: Event, n: nat, y: Tally)
    requires Settles(t, origin, record, net, n, y) && Enabled(net, e) && Steady(t, n, e)
    requires Step(t, origin, record, net, e).next <= n + 1
    ensures Settles(t, origin, record, Step(t, origin, record, net, e), n, Count(t, origin, net, e, n, y))
  {
    StepKeepsCore(t, origin, record, net, e);
    hide Core, Settles, Copies, Count;
    match e {
      case Originate(_) => OriginateSettles(t, origin, record, net, e, n, y);
      case Deliver(_, _) => DeliverSettles(t, origin, record, net, e, n, y);
      case Lose(_) =>
      case Jump(_, _) => JumpSettles(t, origin, record, net, e, n, y);
    }
  }

  lemma {:induction false} NumbersGrow(t: Topology, origin: nat, record: bool, net: Net, events: seq<Event>, final: Net)
    requires Core(t, origin, net) && Reaches(t, origin, record, net, events, final)
    ensures net.next <= final.next
    decreases events
  {
    if events != [] {
      StepKeepsCore(t, origin, record, net, events[0]);
      NumbersGrow(t, origin, record, Step(t, origin, record, net, events[0]), events[1..], final);
    }
  }

  lemma {:induction false} RunSettles(t: Topology, origin: nat, record: bool, net: Net, events: seq<Event>, final: Net,
                                      n: nat, y: Tally)
    requires Settles(t, origin, record, net, n, y) && Reaches(t, origin, record, net, events, final)
    requires (forall e :: e in events ==> Steady(t, n, e)) && final.next <= n + 1
    ensures Settles(t, origin, record, final, n, CountRun(t, origin, record, net, events, final, n, y))
    decreases events
  {
    if events != [] {
      var net' := Step(t, origin, record, net, events[0]);
      StepKeepsCore(t, origin, record, net, events[0]);
      NumbersGrow(t, origin, record, net', events[1..], final);
      StepSettles(t, origin, record, net, events[0], n, y);
      RunSettles(t, origin, record, net', events[1..], final, n, Count(t, origin, net, events[0], n, y));
    }
  }

  /** When all below `k` relay, every one of their ports but one each carries a copy. */
  lemma {:induction false} AllRelay(t: Topology, who: set<nat>, k: nat)
    requires forall v :: 0 <= v < k ==> v in who
    ensures Relays(t, who, k) == |PortsBelow(t, k)| - k
  {
    if k == 0 {
      assert PortsBelow(t, 0) == {};
    } else {
      AllRelay(t, who, k - 1);
      assert PortsBelow(t, k) == PortsBelow(t, k - 1) + t.Ports(k - 1);
      assert PortsBelow(t, k - 1) !! t.Ports(k - 1);
    }
  }

  /**
   Exact cost.  On any connected network with reliable channels, the last number an origin
   sends costs exactly 2E - n + 1 copies by the time all is quiet; deg(origin) - 1 more if and
   only if an echo was taken by the origin, which never happens when it records its numbers.
   */
  lemma ExactCost(t: Topology, origin: nat, record: bool, net: Net, events: seq<Event>, final: Net, channels: nat)
    requires Core(t, origin, net) && Reaches(t, origin, record, net, events, final)
    requires forall e :: e in events ==> Steady(t, net.next, e)
    requires final.next == net.next + 1 && final.flight == multiset{}
    requires Channels(t, channels) && forall v :: 0 <= v < t.nodes ==> Connected(t, origin, v)
    ensures origin < |final.last|
    ensures var echoed := !record && final.last[origin] == net.next;
            CountRun(t, origin, record, net, events, final, net.next, Tally(0, 0, {})).cost
            == 2 * channels - t.nodes + 1 + if echoed then |t.Ports(origin)| - 1 else 0
  {
    var n, zero := net.next, Tally(0, 0, {});
    var y := CountRun(t, origin, record, net, events, final, n, zero);
    NoRelays(t, t.nodes);
    RunSettles(t, origin, record, net, events, final, n, zero);
    forall v | 0 <= v < t.nodes && v != origin ensures v in y.took {
      Coverage(t, origin, record, net, events, final, v);
    }
    AllPortsCount(t, |t.owner|);
    assert PortsBelow(t, t.nodes) == PortsUpTo(t, |t.owner|);
    AllRelay(t, y.took + {origin}, t.nodes);
    if origin in y.took {
      assert y.took + {origin} == y.took;
    } else {
      RelaysAdd(t, y.took, origin, t.nodes);
    }
  }

  // ----- conservation: every copy sent is in flight or was consumed -----

  ghost function InFlight(flight: multiset<Packet>, n: nat, k: nat): nat {
    if k == 0 then 0 else InFlight(flight, n, k - 1) + flight[Packet(k - 1, n)]
  }

  lemma {:induction false} InFlightWithout(flight: multiset<Packet>, pk: Packet, n: nat, k: nat)
    requires pk in flight
    ensures InFlight(flight, n, k) == InFlight(flight - multiset{pk}, n, k) + if pk.n == n && pk.port < k then 1 else 0
  {
    if k > 0 {
      InFlightWithout(flight, pk, n, k - 1);
    }
  }

  /** The channels below `k` whose other end is in `ports`. */
  ghost function PeersBelow(t: Topology, ports: set<nat>, k: nat): set<nat>
    requires t.Valid() && k <= |t.owner|
  {
    set q | 0 <= q < k && t.peer[q] in ports
  }

  lemma PeersStep(t: Topology, ports: set<nat>, k: nat)
    requires t.Valid() && 0 < k <= |t.owner|
    ensures |PeersBelow(t, ports, k)| == |PeersBelow(t, ports, k - 1)| + if t.peer[k - 1] in ports then 1 else 0
  {
    var below := PeersBelow(t, ports, k - 1);
    assert PeersBelow(t, ports, k) == if t.peer[k - 1] in ports then below + {k - 1} else below;
  }

  lemma {:induction false} InFlightWith(t: Topology, flight: multiset<Packet>, ports: set<nat>, m: nat, n: nat, k: nat)
    requires t.Valid() && k <= |t.owner|
    ensures InFlight(flight + Copies(t, ports, m), n, k)
            == InFlight(flight, n, k) + if m == n then |PeersBelow(t, ports, k)| else 0
  {
    if k > 0 {
      CopiesAre(t, ports, m);
      InFlightWith(t, flight, ports, m, n, k - 1);
      PeersStep(t, ports, k);
    }
  }

  lemma {:induction false} PeersCount(t: Topology, ports: set<nat>)
    requires t.Valid() && forall p :: p in ports ==> p < |t.owner|
    ensures |PeersBelow(t, ports, |t.owner|)| == |ports|
    decreases ports
  {
    if ports == {} {
      assert PeersBelow(t, ports, |t.owner|) == {};
    } else {
      var p :| p in ports;
      var fewer := ports - {p};
      PeersCount(t, fewer);
      PeerOfOne(t, fewer, p);
      hide PeersBelow;
      assert ports == fewer + {p};
    }
  }

  /** One port more has one far end more. */
  lemma PeerOfOne(t: Topology, fewer: set<nat>, p: nat)
    requires t.Valid() && p < |t.owner| && p !in fewer
    ensures t.peer[p] !in PeersBelow(t, fewer, |t.owner|)
    ensures PeersBelow(t, fewer + {p}, |t.owner|) == PeersBelow(t, fewer, |t.owner|) + {t.peer[p]}
  {
    assert t.peer[t.peer[p]] == p;
  }

  ghost predicate Conserved(t: Topology, origin: nat, net: Net, n: nat, y: Tally) {
    Core(t, origin, net) && y.cost == y.consumed + InFlight(net.flight, n, |t.owner|)
  }

  lemma StepConserves(t: Topology, origin: nat, record: bool, net: Net, e: Event, n: nat, y: Tally)
    requires Conserved(t, origin, net, n, y) && Enabled(net, e)
    ensures Conserved(t, origin, Step(t, origin, record, net, e), n, Count(t, origin, net, e, n, y))
  {
    StepKeepsCore(t, origin, record, net, e);
    var ports := Targets(t, origin, e);
    match e {
      case Originate(_) =>
        InFlightWith(t, net.flight, ports, net.next, n, |t.owner|);
        PeersCount(t, ports);
      case Deliver(pk, _) =>
        InFlightWithout(net.flight, pk, n, |t.owner|);
        InFlightWith(t, net.flight - multiset{pk}, ports, pk.n, n, |t.owner|);
        PeersCount(t, ports);
      case Lose(pk) =>
        InFlightWithout(net.flight, pk, n, |t.owner|);
      case Jump(_, _) =>
    }
  }

  lemma {:induction false} RunConserves(t: Topology, origin: nat, record: bool, net: Net, events: seq<Event>,
                                        final: Net,
                                        n: nat, y: Tally)
    requires Conserved(t, origin, net, n, y) && Reaches(t, origin, record, net, events, final)
    ensures Conserved(t, origin, final, n, CountRun(t, origin, record, net, events, final, n, y))
    decreases events
  {
    if events != [] {
      StepConserves(t, origin, record, net, events[0], n, y);
      RunConserves(t, origin, record, Step(t, origin, record, net, events[0]), events[1..], final,
                   n, Count(t, origin, net, events[0], n, y));
    }
  }

  // ----- floods die out -----

  /** How far behind the origin the nodes below `k` are. */
  ghost function Behind(net: Net, k: nat): int
    requires k <= |net.last|
  {
    if k == 0 then 0 else Behind(net, k - 1) + net.next - net.last[k - 1]
  }

  lemma {:induction false} BehindUpdate(net: Net, net': Net, v: nat, k: nat)
    requires k <= |net.last| && v < |net.last| && net'.next == net.next
    requires |net'.last| == |net.last| && net'.last == net.last[v := net'.last[v]]
    ensures Behind(net', k) == Behind(net, k) - if v < k then net'.last[v] - net.last[v] else 0
  {
    if k > 0 {
      BehindUpdate(net, net', v, k - 1);
    }
  }

  lemma {:induction false} BehindPositive(t: Topology, origin: nat, net: Net, k: nat)
    requires Core(t, origin, net) && k <= t.nodes
    ensures Behind(net, k) >= k
  {
    if k > 0 {
      BehindPositive(t, origin, net, k - 1);
    }
  }

  /**
   Every delivery and every loss lowers the pair (how far behind the nodes are, copies in
   flight) lexicographically, and the first component is never negative.
   */
  lemma ConsumingLowersMeasure(t: Topology, origin: nat, record: bool, net: Net, e: Event)
    requires Core(t, origin, net) && Enabled(net, e) && !e.Originate?
    ensures var net' := Step(t, origin, record, net, e);
            && |net'.last| == t.nodes
            && 0 <= Behind(net', t.nodes) <= Behind(net, t.nodes)
            && (Behind(net', t.nodes) < Behind(net, t.nodes) || |net'.flight| < |net.flight|)
  {
    var net' := Step(t, origin, record, net, e);
    StepKeepsCore(t, origin, record, net, e);
    BehindPositive(t, origin, net', t.nodes);
    var v := if e.Jump? then e.node else t.owner[e.packet.port];
    BehindUpdate(net, net', v, t.nodes);
  }

  // ----- the bounds are reached -----

  /** Two nodes joined by two channels. */
  function Twin(): Topology {
    Topology(2, [0, 0, 1, 1], [2, 3, 0, 1])
  }

  const ALL: set<nat> := {0, 1, 2, 3}
  const OUT: Event := Originate(ALL)
  const RELAY: Event := Deliver(Packet(2, 0), ALL)
  const ECHO: Event := Deliver(Packet(1, 0), ALL)

  lemma TwinPorts()
    ensures Twin().Valid() && Channels(Twin(), 2)
    ensures Twin().Ports(0) == {0, 1} && Twin().Ports(1) == {2, 3}
    ensures Targets(Twin(), 0, OUT) == {0, 1}
    ensures Targets(Twin(), 0, RELAY) == {3}
    ensures Targets(Twin(), 0, ECHO) == {0}
  {
  }

  lemma TwinCopies(ports: set<nat>, q: nat, r: nat)
    requires Twin().Valid() && q < 4 && r < 4
    requires ports == {Twin().peer[q], Twin().peer[r]}
    ensures Copies(Twin(), ports, 0) == if q == r then multiset{Packet(q, 0)} else multiset{Packet(q, 0), Packet(r, 0)}
  {
    CopiesAre(Twin(), ports, 0);
  }

  // What the system holds at the start and after each of the three steps.
  function Echo0(): Net { Net(0, [-1, -1], multiset{}) }
  function Echo1(record: bool): Net { Net(1, [if record then 0 else -1, -1], multiset{Packet(2, 0), Packet(3, 0)}) }
  function Echo2(record: bool): Net { Net(1, [if record then 0 else -1, 0], multiset{Packet(3, 0), Packet(1, 0)}) }
  function Echo3(record: bool): Net {
    Net(1, [0, 0], if record then multiset{Packet(3, 0)} else multiset{Packet(3, 0), Packet(2, 0)})
  }

  lemma EchoStep1(record: bool)
    ensures Core(Twin(), 0, Echo0()) && Step(Twin(), 0, record, Echo0(), OUT) == Echo1(record)
    ensures Count(Twin(), 0, Echo0(), OUT, 0, Tally(0, 0, {})) == Tally(2, 0, {})
  {
    TwinPorts();
    TwinCopies({0, 1}, 2, 3);
  }

  lemma EchoStep2(record: bool)
    requires Core(Twin(), 0, Echo1(record))
    ensures Step(Twin(), 0, record, Echo1(record), RELAY) == Echo2(record)
    ensures Count(Twin(), 0, Echo1(record), RELAY, 0, Tally(2, 0, {})) == Tally(3, 1, {1})
  {
    TwinPorts();
    TwinCopies({3}, 1, 1);
    hide Copies, Targets;
  }

  lemma EchoStep3(record: bool)
    requires Core(Twin(), 0, Echo2(record))
    ensures Step(Twin(), 0, record, Echo2(record), ECHO) == Echo3(record)
    ensures Count(Twin(), 0, Echo2(record), ECHO, 0, Tally(3, 1, {1}))
            == if record then Tally(3, 2, {1}) else Tally(4, 2, {0, 1})
  {
    TwinPorts();
    TwinCopies({0}, 2, 2);
    hide Copies, Targets;
  }

  lemma RunOne(t: Topology, origin: nat, record: bool, net: Net, e: Event, rest: seq<Event>, final: Net, n: nat,
               y: Tally)
    requires Core(t, origin, net) && Enabled(net, e)
    ensures Core(t, origin, Step(t, origin, record, net, e))
    ensures Reaches(t, origin, record, Step(t, origin, record, net, e), rest, final) ==>
              && Reaches(t, origin, record, net, [e] + rest, final)
              && CountRun(t, origin, record, net, [e] + rest, final, n, y)
                 == CountRun(t, origin, record, Step(t, origin, record, net, e), rest, final, n,
                             Count(t, origin, net, e, n, y))
  {
    StepKeepsCore(t, origin, record, net, e);
    assert ([e] + rest)[1..] == rest;
  }

  /**
   Both bounds of `SendBound` are met with equality when the origin sends on both channels,
   its neighbour relays the first copy back and the echo arrives: 3 copies when the origin
   recorded its number and rejects the echo, 4 when it did not and relays it once.
   */
  lemma SendBoundIsTight(record: bool)
    ensures var t, events := Twin(), [OUT] + ([RELAY] + ([ECHO] + []));
            && Core(t, 0, Echo0()) && Channels(t, 2)
            && Reaches(t, 0, record, Echo0(), events, Echo3(record))
            && CountRun(t, 0, record, Echo0(), events, Echo3(record), 0, Tally(0, 0, {})).cost
               == 2 * 2 - t.nodes + (if record then 1 else |t.Ports(0)|)
  {
    var final := Echo3(record);
    EchoStep1(record);
    RunOne(Twin(), 0, record, Echo0(), OUT, [RELAY] + ([ECHO] + []), final, 0, Tally(0, 0, {}));
    EchoStep2(record);
    RunOne(Twin(), 0, record, Echo1(record), RELAY, [ECHO] + [], final, 0, Tally(2, 0, {}));
    EchoStep3(record);
    RunOne(Twin(), 0, record, Echo2(record), ECHO, [], final, 0, Tally(3, 1, {1}));
    TwinPorts();
  }
}
