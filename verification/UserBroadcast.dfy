/**
 User broadcasts: each node filters by the newest sequence it accepted from a source, and
 relays what passes.  A source does not filter its own numbers when it sends.
 */
module UserBroadcast {
  import opened Common
  import opened Sequence
  import opened Limits
  import F = Flood

  type Id = nat

  /** A transport: what it accepted last from each source, and its own next number. */
  datatype Peer = Peer(sequences: map<Id, uint32>, sendSequence: uint32)

  function LastOf(sequences: map<Id, uint32>, id: Id): Option<uint32> {
    if id in sequences then Some(sequences[id]) else None
  }

  predicate Passes(p: Peer, id: Id, sequence: uint32) {
    Accepts(LastOf(p.sequences, id), sequence)
  }

  /** The filter's memory after a message, passed or not. */
  function Filtered(p: Peer, id: Id, sequence: uint32): Peer {
    if Passes(p, id, sequence) then p.(sequences := p.sequences[id := sequence]) else p
  }

  /** The memory after messages from one source, and which of them passed. */
  function FilteredAll(p: Peer, id: Id, arrivals: seq<uint32>): Peer
    decreases arrivals
  {
    if arrivals == [] then p else FilteredAll(Filtered(p, id, arrivals[0]), id, arrivals[1..])
  }

  function PassesAll(p: Peer, id: Id, arrivals: seq<uint32>): seq<bool>
    decreases arrivals
  {
    if arrivals == [] then []
    else [Passes(p, id, arrivals[0])] + PassesAll(Filtered(p, id, arrivals[0]), id, arrivals[1..])
  }

  /** Message by message the transport's memory is that of the filter on one list, and no other source's changes. */
  lemma {:induction false} TransportFilters(p: Peer, id: Id, arrivals: seq<uint32>)
    ensures PassesAll(p, id, arrivals) == Decide(LastOf(p.sequences, id), arrivals)
    ensures LastOf(FilteredAll(p, id, arrivals).sequences, id) == Stored(LastOf(p.sequences, id), arrivals)
    ensures forall x :: x != id ==> LastOf(FilteredAll(p, id, arrivals).sequences, x) == LastOf(p.sequences, x)
    decreases arrivals
  {
    if arrivals != [] {
      TransportFilters(Filtered(p, id, arrivals[0]), id, arrivals[1..]);
    }
  }

  /** A message of its source to one node, under the number it took. */
  datatype Letter = Letter(to: nat, number: int)

  /**
   The network.  `clock[s]` is the true number `s` will use next, `numbers[s]` the true numbers
   of the broadcasts it has sent and `letters[s]` what it has sent to single nodes.  `held[v][s]`
   is the true number `v` has stored for `s`, `rows[v][s]` the newest broadcast of `s` whose
   number that one reaches, and `took[v][s]` the broadcast `v` accepted last; both are -1 when
   there is none.  All of these are history.
   */
  datatype Sys = Sys(peers: seq<Peer>, clock: seq<int>, numbers: seq<seq<int>>, letters: seq<seq<Letter>>,
                     held: seq<seq<Option<int>>>, rows: seq<seq<int>>, took: seq<seq<int>>,
                     flight: seq<multiset<F.Packet>>)

  /** The sequence that broadcast `n` of `s` carries. */
  function SequenceOf(sys: Sys, s: nat, n: nat): uint32
    requires s < |sys.numbers| && n < |sys.numbers[s]|
  {
    Wrap(sys.numbers[s][n])
  }

  /** True numbers grow from broadcast to broadcast; letters and failed calls take some in between. */
  ghost predicate Counts(numbers: seq<int>, clock: int) {
    && (forall i, j :: 0 <= i < j < |numbers| ==> numbers[i] < numbers[j])
    && (forall i :: 0 <= i < |numbers| ==> numbers[i] < clock)
  }

  /** How many broadcasts have numbers up to `q`. */
  function Upto(numbers: seq<int>, q: int): (r: nat)
    ensures r <= |numbers| && (r > 0 ==> numbers[r - 1] <= q) && (r < |numbers| ==> q < numbers[r])
  {
    if numbers == [] then 0
    else if numbers[|numbers| - 1] <= q then |numbers|
    else Upto(numbers[..|numbers| - 1], q)
  }

  /** The stored number tells the broadcasts up to `row` from those after it. */
  ghost predicate Separates(numbers: seq<int>, row: int, held: Option<int>) {
    && -1 <= row < |numbers|
    && match held
       case None => row == -1
       case Some(h) => (row >= 0 ==> numbers[row] <= h) && forall i :: row < i < |numbers| ==> h < numbers[i]
  }

  ghost predicate Sized(t: F.Topology, sys: Sys) {
    && t.Valid()
    && |sys.peers| == |sys.clock| == |sys.numbers| == |sys.letters| == |sys.flight| == t.nodes
    && |sys.held| == |sys.rows| == |sys.took| == t.nodes
    && forall v :: 0 <= v < t.nodes ==> |sys.held[v]| == |sys.rows[v]| == |sys.took[v]| == t.nodes
  }

  /** What `v` remembers of `s`. */
  ghost predicate Remembers(t: F.Topology, sys: Sys, v: nat, s: nat)
    requires Sized(t, sys) && v < t.nodes && s < t.nodes
  {
    && Separates(sys.numbers[s], sys.rows[v][s], sys.held[v][s]) && -1 <= sys.took[v][s] <= sys.rows[v][s]
    && LastOf(sys.peers[v].sequences, s) == WrapLast(sys.held[v][s])
    && (sys.held[v][s].Some? ==> sys.held[v][s].value < sys.clock[s])
  }

  /** What `s` has sent. */
  ghost predicate Sent(t: F.Topology, sys: Sys, s: nat)
    requires Sized(t, sys) && s < t.nodes
  {
    && sys.peers[s].sendSequence == Wrap(sys.clock[s]) && Counts(sys.numbers[s], sys.clock[s])
    && (forall k :: 0 <= k < |sys.letters[s]| ==>
          sys.letters[s][k].to < t.nodes && sys.letters[s][k].number < sys.clock[s])
    && FlightOk(t, |sys.numbers[s]|, sys.flight[s])
  }

  ghost predicate Valid(t: F.Topology, sys: Sys) {
    && Sized(t, sys)
    && (forall s :: 0 <= s < t.nodes ==> Sent(t, sys, s))
    && (forall v, s :: 0 <= v < t.nodes && 0 <= s < t.nodes ==> Remembers(t, sys, v, s))
  }

  ghost predicate FlightOk(t: F.Topology, sent: nat, flight: multiset<F.Packet>) {
    forall pk :: pk in flight ==> pk.port < |t.owner| && pk.n < sent
  }

  /**
   A call of `broadcast` or `send` that puts a body of `length` bytes in its message, a copy of
   a broadcast read or lost, or letter `k` read by its addressee; letters may be lost or overtake.
   */
  datatype Move =
    | Broadcast(s: nat, length: nat, open: set<nat>)
    | Send(s: nat, to: nat, length: nat)
    | Hear(s: nat, packet: F.Packet, open: set<nat>)
    | Miss(s: nat, packet: F.Packet)
    | Read(s: nat, k: nat)

  /** The number is not too far from the stored one to be compared. */
  predicate Within(held: Option<int>, n: int) {
    held.Some? ==> InWindow(n - held.value)
  }

  ghost predicate Allowed(t: F.Topology, sys: Sys, m: Move)
    requires Valid(t, sys)
  {
    m.s < t.nodes &&
    match m
    case Broadcast(_, _, _) => true
    case Send(_, to, _) => to < t.nodes
    case Hear(s, pk, _) =>
      && pk in sys.flight[s] && pk.port < |t.owner|
      && (assert Sent(t, sys, s); Within(sys.held[t.owner[pk.port]][s], sys.numbers[s][pk.n]))
    case Miss(s, pk) => pk in sys.flight[s]
    case Read(s, k) =>
      && k < |sys.letters[s]|
      && (assert Sent(t, sys, s); Within(sys.held[sys.letters[s][k].to][s], sys.letters[s][k].number))
  }

  /** The source has taken a number. */
  function Called(sys: Sys, s: nat): Sys
    requires s < |sys.peers| == |sys.clock|
  {
    sys.(peers := sys.peers[s := sys.peers[s].(sendSequence := Wrap(sys.peers[s].sendSequence + 1))],
         clock := sys.clock[s := sys.clock[s] + 1])
  }

  /** `v` has stored the true number `q` of `s`, which reaches broadcast `row`; it accepted `took` last. */
  ghost function Stores(t: F.Topology, sys: Sys, v: nat, s: nat, q: int, row: int, took: int): Sys
    requires Sized(t, sys) && v < t.nodes && s < t.nodes
  {
    sys.(peers := sys.peers[v := Filtered(sys.peers[v], s, Wrap(q))],
         held := sys.held[v := sys.held[v][s := Some(q)]],
         rows := sys.rows[v := sys.rows[v][s := row]],
         took := sys.took[v := sys.took[v][s := took]])
  }

  ghost function Next(t: F.Topology, sys: Sys, m: Move): Sys
    requires Valid(t, sys) && Allowed(t, sys, m)
  {
    match m
    case Broadcast(s, length, open) =>
      if length > MAX_BODY then Called(sys, s)
      else
        Called(sys, s).(numbers := sys.numbers[s := sys.numbers[s] + [sys.clock[s]]],
                        flight := sys.flight[s := sys.flight[s] + F.Copies(t, t.Ports(s) * open, |sys.numbers[s]|)])
    case Send(s, to, length) =>
      if length > MAX_BODY then Called(sys, s)
      else Called(sys, s).(letters := sys.letters[s := sys.letters[s] + [Letter(to, sys.clock[s])]])
    case Hear(s, pk, open) =>
      assert Sent(t, sys, s);
      var v := t.owner[pk.port];
      var rest := sys.flight[s] - multiset{pk};
      if Passes(sys.peers[v], s, SequenceOf(sys, s, pk.n)) then
        Stores(t, sys, v, s, sys.numbers[s][pk.n], pk.n, pk.n)
          .(flight := sys.flight[s := rest + F.Copies(t, (t.Ports(v) - {pk.port}) * open, pk.n)])
      else sys.(flight := sys.flight[s := rest])
    case Miss(s, pk) => sys.(flight := sys.flight[s := sys.flight[s] - multiset{pk}])
    case Read(s, k) =>
      assert Sent(t, sys, s);
      var Letter(v, q) := sys.letters[s][k];
      if Passes(sys.peers[v], s, Wrap(q)) then Stores(t, sys, v, s, q, Upto(sys.numbers[s], q) - 1, sys.took[v][s])
      else sys
  }

  /** Transports just made, each from its own starting number, before anything is sent. */
  function Fresh(t: F.Topology, first: Id -> int): Sys {
    Sys(seq(t.nodes, (v: nat) => Peer(map[], Wrap(first(v)))), seq(t.nodes, (v: nat) => first(v)),
        seq(t.nodes, (v: nat) => []), seq(t.nodes, (v: nat) => []),
        seq(t.nodes, (v: nat) => seq(t.nodes, (s: nat) => None)),
        seq(t.nodes, (v: nat) => seq(t.nodes, (s: nat) => -1)),
        seq(t.nodes, (v: nat) => seq(t.nodes, (s: nat) => -1)),
        seq(t.nodes, (v: nat) => multiset{}))
  }

  lemma FreshIsValid(t: F.Topology, first: Id -> int)
    requires t.Valid()
    ensures Valid(t, Fresh(t, first))
  {
    var sys := Fresh(t, first);
    forall s | 0 <= s < t.nodes ensures Sent(t, sys, s) {
      assert sys.numbers[s] == [] && sys.letters[s] == [] && sys.flight[s] == multiset{};
    }
    forall v, s | 0 <= v < t.nodes && 0 <= s < t.nodes ensures Remembers(t, sys, v, s) {
      assert sys.peers[v].sequences == map[] && sys.numbers[s] == [];
    }
  }

  /** A payload that does not fit throws: its number is taken and nothing is sent. */
  lemma OversizedTakesANumber(t: F.Topology, sys: Sys, m: Move)
    requires Valid(t, sys) && Allowed(t, sys, m) && (m.Broadcast? || m.Send?)
    ensures var sys' := Next(t, sys, m);
            && (sys'.numbers == sys.numbers && sys'.letters == sys.letters <==> m.length > MAX_BODY)
            && (m.length > MAX_BODY ==> sys'.flight == sys.flight)
            && sys'.peers[m.s].sendSequence == Wrap(sys.peers[m.s].sendSequence + 1)
  {
    assert |sys.numbers[m.s] + [sys.clock[m.s]]| != |sys.numbers[m.s]|;
    if m.Send? {
      assert |sys.letters[m.s] + [Letter(m.to, sys.clock[m.s])]| != |sys.letters[m.s]|;
    }
  }

  // ----- what every step keeps -----

  /** The filter decides on wrapped numbers as it would on true ones. */
  lemma PassesExactly(p: Peer, s: nat, held: Option<int>, q: int)
    requires LastOf(p.sequences, s) == WrapLast(held) && Within(held, q)
    ensures Passes(p, s, Wrap(q)) <==> held.None? || held.value < q
  {
    if held.Some? {
      CompareExact(q, held.value);
    }
  }

  /** Of a broadcast it decides by its place among the broadcasts. */
  lemma Decides(t: F.Topology, sys: Sys, m: Move)
    requires Valid(t, sys) && Allowed(t, sys, m) && m.Hear?
    ensures var v := t.owner[m.packet.port];
            v < t.nodes && m.packet.n < |sys.numbers[m.s]|
            && (Passes(sys.peers[v], m.s, SequenceOf(sys, m.s, m.packet.n)) <==> sys.rows[v][m.s] < m.packet.n)
  {
    var v, s := t.owner[m.packet.port], m.s;
    assert Sent(t, sys, s) && Remembers(t, sys, v, s);
    PassesExactly(sys.peers[v], s, sys.held[v][s], sys.numbers[s][m.packet.n]);
  }

  /** A letter that passes reaches at least as far as what was stored. */
  lemma ReadSeparates(t: F.Topology, sys: Sys, m: Move)
    requires Valid(t, sys) && Allowed(t, sys, m) && m.Read?
    ensures var Letter(v, q) := sys.letters[m.s][m.k];
            v < t.nodes && q < sys.clock[m.s]
            && (Passes(sys.peers[v], m.s, Wrap(q)) ==>
                  && Separates(sys.numbers[m.s], Upto(sys.numbers[m.s], q) - 1, Some(q))
                  && sys.rows[v][m.s] <= Upto(sys.numbers[m.s], q) - 1)
  {
    var Letter(v, q) := sys.letters[m.s][m.k];
    assert Sent(t, sys, m.s);
    assert Remembers(t, sys, v, m.s);
    PassesExactly(sys.peers[v], m.s, sys.held[v][m.s], q);
  }

  lemma CallKeepsSent(t: F.Topology, sys: Sys, m: Move, s: nat)
    requires Valid(t, sys) && Allowed(t, sys, m) && (m.Broadcast? || m.Send?) && s < t.nodes
    ensures Sized(t, Next(t, sys, m)) && Sent(t, Next(t, sys, m), s)
  {
    assert Sent(t, sys, s);
    WrapNext(sys.clock[s]);
    if m.Broadcast? { F.CopiesAre(t, t.Ports(s) * m.open, |sys.numbers[s]|); }
    hide F.Copies, Remembers, Separates;
  }

  lemma CallKeepsMemory(t: F.Topology, sys: Sys, m: Move, v: nat, s: nat)
    requires Valid(t, sys) && Allowed(t, sys, m) && (m.Broadcast? || m.Send?) && v < t.nodes && s < t.nodes
    ensures Sized(t, Next(t, sys, m)) && Remembers(t, Next(t, sys, m), v, s)
  {
    assert Remembers(t, sys, v, s);
    hide F.Copies, Sent;
  }

  lemma CallKeepsValid(t: F.Topology, sys: Sys, m: Move)
    requires Valid(t, sys) && Allowed(t, sys, m) && (m.Broadcast? || m.Send?)
    ensures Valid(t, Next(t, sys, m))
  {
    var sys' := Next(t, sys, m);
    CallKeepsSent(t, sys, m, m.s);
    hide Next, Sized, Sent, Remembers;
    forall s | 0 <= s < t.nodes ensures Sent(t, sys', s) {
      CallKeepsSent(t, sys, m, s);
    }
    forall v, s | 0 <= v < t.nodes && 0 <= s < t.nodes ensures Remembers(t, sys', v, s) {
      CallKeepsMemory(t, sys, m, v, s);
    }
  }

  /** Storing a number that separates keeps what everyone remembers. */
  lemma StoresRemembers(t: F.Topology, sys: Sys, v: nat, s: nat, q: int, row: int, took: int, u: nat, x: nat)
    requires Sized(t, sys) && v < t.nodes && s < t.nodes && u < t.nodes && x < t.nodes
    requires Remembers(t, sys, u, x) && Passes(sys.peers[v], s, Wrap(q))
    requires Separates(sys.numbers[s], row, Some(q)) && -1 <= took <= row && q < sys.clock[s]
    ensures Sized(t, Stores(t, sys, v, s, q, row, took))
    ensures Remembers(t, Stores(t, sys, v, s, q, row, took), u, x)
  {
    hide Separates;
  }

  lemma HearKeepsSent(t: F.Topology, sys: Sys, m: Move, x: nat)
    requires Valid(t, sys) && Allowed(t, sys, m) && m.Hear? && x < t.nodes
    ensures Sized(t, Next(t, sys, m)) && Sent(t, Next(t, sys, m), x)
  {
    assert Sent(t, sys, x) && Sent(t, sys, m.s);
    var ports := (t.Ports(t.owner[m.packet.port]) - {m.packet.port}) * m.open;
    CopiesFly(t, |sys.numbers[m.s]|, sys.flight[m.s], m.packet, ports);
    hide F.Copies, Remembers, Separates, Passes, Filtered, Within, FlightOk, Counts;
  }

  /** Reading a copy and relaying it leaves only copies of what was sent. */
  lemma CopiesFly(t: F.Topology, sent: nat, flight: multiset<F.Packet>, pk: F.Packet, ports: set<nat>)
    requires t.Valid() && FlightOk(t, sent, flight) && pk in flight
    ensures FlightOk(t, sent, flight - multiset{pk})
    ensures FlightOk(t, sent, flight - multiset{pk} + F.Copies(t, ports, pk.n))
  {
    F.CopiesAre(t, ports, pk.n);
    hide F.Copies;
  }

  lemma HearKeepsMemory(t: F.Topology, sys: Sys, m: Move, u: nat, x: nat)
    requires Valid(t, sys) && Allowed(t, sys, m) && m.Hear? && u < t.nodes && x < t.nodes
    ensures Sized(t, Next(t, sys, m)) && Remembers(t, Next(t, sys, m), u, x)
  {
    var sys', s, v, pk := Next(t, sys, m), m.s, t.owner[m.packet.port], m.packet;
    Decides(t, sys, m);
    assert Sent(t, sys, s) && Remembers(t, sys, u, x);
    hide F.Copies;
    if Passes(sys.peers[v], s, SequenceOf(sys, s, pk.n)) {
      StoresRemembers(t, sys, v, s, sys.numbers[s][pk.n], pk.n, pk.n, u, x);
      assert sys' == Stores(t, sys, v, s, sys.numbers[s][pk.n], pk.n, pk.n).(flight := sys'.flight);
    }
  }

  lemma HearKeepsValid(t: F.Topology, sys: Sys, m: Move)
    requires Valid(t, sys) && Allowed(t, sys, m) && m.Hear?
    ensures Valid(t, Next(t, sys, m))
  {
    var sys' := Next(t, sys, m);
    assert 0 < t.nodes;
    HearKeepsSent(t, sys, m, 0);
    hide Next, Allowed, Sized, Sent, Remembers;
    forall x | 0 <= x < t.nodes ensures Sent(t, sys', x) {
      HearKeepsSent(t, sys, m, x);
    }
    forall u, x | 0 <= u < t.nodes && 0 <= x < t.nodes ensures Remembers(t, sys', u, x) {
      HearKeepsMemory(t, sys, m, u, x);
    }
  }

  lemma ReadKeepsValid(t: F.Topology, sys: Sys, m: Move)
    requires Valid(t, sys) && Allowed(t, sys, m) && m.Read?
    ensures Valid(t, Next(t, sys, m))
  {
    var sys', s := Next(t, sys, m), m.s;
    var Letter(v, q) := sys.letters[s][m.k];
    ReadSeparates(t, sys, m);
    forall x | 0 <= x < t.nodes ensures Sent(t, sys', x) {
      assert Sent(t, sys, x);
    }
    assert Remembers(t, sys, v, s);
    forall u, x | 0 <= u < t.nodes && 0 <= x < t.nodes ensures Remembers(t, sys', u, x) {
      assert Remembers(t, sys, u, x);
      if Passes(sys.peers[v], s, Wrap(q)) {
        StoresRemembers(t, sys, v, s, q, Upto(sys.numbers[s], q) - 1, sys.took[v][s], u, x);
      }
    }
  }

  lemma NextKeepsValid(t: F.Topology, sys: Sys, m: Move)
    requires Valid(t, sys) && Allowed(t, sys, m)
    ensures Valid(t, Next(t, sys, m))
  {
    match m {
      case Broadcast(_, _, _) => CallKeepsValid(t, sys, m);
      case Send(_, _, _) => CallKeepsValid(t, sys, m);
      case Hear(_, _, _) => HearKeepsValid(t, sys, m);
      case Read(_, _) => ReadKeepsValid(t, sys, m);
      case Miss(s, pk) =>
        var sys' := Next(t, sys, m);
        forall x | 0 <= x < t.nodes ensures Sent(t, sys', x) {
          assert Sent(t, sys, x);
        }
        forall u, x | 0 <= u < t.nodes && 0 <= x < t.nodes ensures Remembers(t, sys', u, x) {
          assert Remembers(t, sys, u, x);
        }
    }
  }

  // ----- each source's broadcasts flood -----

  /** A node counts as having what its stored number reaches. */
  ghost function View(t: F.Topology, sys: Sys, s: nat): F.Net
    requires Valid(t, sys) && s < t.nodes
  {
    F.Net(|sys.numbers[s]|, seq(t.nodes, v requires 0 <= v < t.nodes => sys.rows[v][s]), sys.flight[s])
  }

  lemma ViewCore(t: F.Topology, sys: Sys, s: nat)
    requires Valid(t, sys) && s < t.nodes
    ensures F.Core(t, s, View(t, sys, s))
  {
    forall v | 0 <= v < t.nodes ensures -1 <= sys.rows[v][s] < |sys.numbers[s]| {
      assert Remembers(t, sys, v, s);
    }
    assert Sent(t, sys, s);
  }

  lemma ViewIs(t: F.Topology, sys: Sys, s: nat, net: F.Net)
    requires Valid(t, sys) && s < t.nodes
    requires net.next == |sys.numbers[s]| && net.flight == sys.flight[s] && |net.last| == t.nodes
    requires forall v :: 0 <= v < t.nodes ==> net.last[v] == sys.rows[v][s]
    ensures View(t, sys, s) == net
  {
  }

  /** The step of the source's flood, if the move is one: a letter makes its reader jump over broadcasts. */
  ghost function Shadow(t: F.Topology, sys: Sys, m: Move): Option<F.Event>
    requires Valid(t, sys) && Allowed(t, sys, m)
  {
    match m
    case Broadcast(_, length, open) => if length > MAX_BODY then None else Some(F.Originate(open))
    case Send(_, _, _) => None
    case Hear(_, pk, open) => Some(F.Deliver(pk, open))
    case Miss(_, pk) => Some(F.Lose(pk))
    case Read(s, k) =>
      ReadSeparates(t, sys, m);
      var Letter(v, q) := sys.letters[s][k];
      var row := Upto(sys.numbers[s], q) - 1;
      if Passes(sys.peers[v], s, Wrap(q)) && 0 <= row && sys.rows[v][s] < row then Some(F.Jump(v, row)) else None
  }

  ghost predicate Refined(t: F.Topology, sys: Sys, m: Move, s: nat)
    requires Valid(t, sys) && Allowed(t, sys, m) && s < t.nodes
  {
    var steps := s == m.s && Shadow(t, sys, m).Some?;
    && Valid(t, Next(t, sys, m)) && F.Core(t, s, View(t, sys, s))
    && (steps ==> F.Enabled(View(t, sys, s), Shadow(t, sys, m).value))
    && View(t, Next(t, sys, m), s)
       == if steps then F.Step(t, s, false, View(t, sys, s), Shadow(t, sys, m).value) else View(t, sys, s)
  }

  lemma HearRefines(t: F.Topology, sys: Sys, m: Move)
    requires Valid(t, sys) && Allowed(t, sys, m) && m.Hear?
    ensures Refined(t, sys, m, m.s)
  {
    var sys', before, pk := Next(t, sys, m), View(t, sys, m.s), m.packet;
    NextKeepsValid(t, sys, m);
    ViewCore(t, sys, m.s);
    Decides(t, sys, m);
    hide F.Copies, Remembers, Sent, Separates;
    if sys.rows[t.owner[pk.port]][m.s] < pk.n {
      ViewIs(t, sys', m.s, F.Net(before.next, before.last[t.owner[pk.port] := pk.n], sys'.flight[m.s]));
    } else {
      ViewIs(t, sys', m.s, before.(flight := sys'.flight[m.s]));
    }
  }

  lemma ReadRefines(t: F.Topology, sys: Sys, m: Move)
    requires Valid(t, sys) && Allowed(t, sys, m) && m.Read?
    ensures Refined(t, sys, m, m.s)
  {
    var sys', before := Next(t, sys, m), View(t, sys, m.s);
    NextKeepsValid(t, sys, m);
    ViewCore(t, sys, m.s);
    ReadSeparates(t, sys, m);
    var Letter(v, q) := sys.letters[m.s][m.k];
    var row := Upto(sys.numbers[m.s], q) - 1;
    hide F.Copies, Remembers, Sent, Separates;
    ViewIs(t, sys', m.s,
           if Passes(sys.peers[v], m.s, Wrap(q)) then before.(last := before.last[v := row]) else before);
  }

  /** The other sources' floods stand still. */
  lemma OthersStand(t: F.Topology, sys: Sys, m: Move, s: nat)
    requires Valid(t, sys) && Allowed(t, sys, m) && s < t.nodes && s != m.s
    ensures Refined(t, sys, m, s)
  {
    var sys', before := Next(t, sys, m), View(t, sys, s);
    NextKeepsValid(t, sys, m);
    ViewCore(t, sys, s);
    assert Sent(t, sys, m.s);
    hide F.Copies, Remembers, Sent, Separates;
    ViewIs(t, sys', s, before);
  }

  /** A step of the network is at most a step of the flood of one source, whose origin records nothing. */
  lemma Refines(t: F.Topology, sys: Sys, m: Move, s: nat)
    requires Valid(t, sys) && Allowed(t, sys, m) && s < t.nodes
    ensures Refined(t, sys, m, s)
  {
    if s != m.s {
      OthersStand(t, sys, m, s);
    } else if m.Hear? {
      HearRefines(t, sys, m);
    } else if m.Read? {
      ReadRefines(t, sys, m);
    } else {
      NextKeepsValid(t, sys, m);
      ViewCore(t, sys, s);
      var before, sys' := View(t, sys, s), Next(t, sys, m);
      hide F.Copies, Remembers, Sent, Separates;
      ViewIs(t, sys', s, F.Net(|sys'.numbers[s]|, before.last, sys'.flight[s]));
    }
  }

  // ----- whole runs -----

  ghost predicate Runs(t: F.Topology, sys: Sys, moves: seq<Move>, final: Sys)
    requires Valid(t, sys)
    decreases moves
  {
    if moves == [] then final == sys
    else
      && Allowed(t, sys, moves[0])
      && (NextKeepsValid(t, sys, moves[0]); Runs(t, Next(t, sys, moves[0]), moves[1..], final))
  }

  ghost predicate Reliable(t: F.Topology, m: Move) {
    !m.Miss? && (m.Broadcast? || m.Hear? ==> forall p :: 0 <= p < |t.owner| ==> p in m.open)
  }

  ghost function Shadows(t: F.Topology, sys: Sys, moves: seq<Move>, final: Sys, s: nat): seq<F.Event>
    requires Valid(t, sys) && Runs(t, sys, moves, final)
    decreases moves
  {
    if moves == [] then []
    else
      NextKeepsValid(t, sys, moves[0]);
      var rest := Shadows(t, Next(t, sys, moves[0]), moves[1..], final, s);
      if moves[0].s == s && Shadow(t, sys, moves[0]).Some? then [Shadow(t, sys, moves[0]).value] + rest else rest
  }

  lemma {:induction false} RunRefines(t: F.Topology, sys: Sys, moves: seq<Move>, final: Sys, s: nat)
    requires Valid(t, sys) && Runs(t, sys, moves, final) && s < t.nodes
    ensures Valid(t, final) && F.Core(t, s, View(t, sys, s))
    ensures F.Reaches(t, s, false, View(t, sys, s), Shadows(t, sys, moves, final, s), View(t, final, s))
    decreases moves
  {
    ViewCore(t, sys, s);
    if moves != [] {
      Refines(t, sys, moves[0], s);
      hide Sized, Valid, Next, View, Shadow;
      var sys' := Next(t, sys, moves[0]);
      RunRefines(t, sys', moves[1..], final, s);
      var rest := Shadows(t, sys', moves[1..], final, s);
      if Shadow(t, sys, moves[0]).Some? { assert ([Shadow(t, sys, moves[0]).value] + rest)[1..] == rest; }
    }
  }

  /** The letter is accepted by `v` although broadcast `n`, numbered before it, was not: now it never will be. */
  ghost predicate Overtakes(t: F.Topology, sys: Sys, m: Move, s: nat, v: nat, n: nat)
    requires Valid(t, sys) && Allowed(t, sys, m)
  {
    && m.Read? && m.s == s && (assert Sent(t, sys, s); true)
    && var Letter(to, q) := sys.letters[s][m.k];
    && to == v && Passes(sys.peers[v], s, Wrap(q))
    && sys.rows[v][s] < n < |sys.numbers[s]| && sys.numbers[s][n] <= q
  }

  ghost predicate OvertakenIn(t: F.Topology, sys: Sys, moves: seq<Move>, final: Sys, s: nat, v: nat, n: nat)
    requires Valid(t, sys) && Runs(t, sys, moves, final)
    decreases moves
  {
    moves != [] &&
    (|| Overtakes(t, sys, moves[0], s, v, n)
     || (NextKeepsValid(t, sys, moves[0]);
         OvertakenIn(t, Next(t, sys, moves[0]), moves[1..], final, s, v, n)))
  }

  /** No letter overtakes a broadcast from `base` on, at any node of `who`. */
  ghost predicate Undisturbed(t: F.Topology, sys: Sys, moves: seq<Move>, final: Sys, s: nat, base: nat, who: set<nat>)
    requires Valid(t, sys) && Runs(t, sys, moves, final)
  {
    forall v, n: nat :: v in who && base <= n ==> !OvertakenIn(t, sys, moves, final, s, v, n)
  }

  lemma UndisturbedStep(t: F.Topology, sys: Sys, moves: seq<Move>, final: Sys, s: nat, base: nat, who: set<nat>)
    requires Valid(t, sys) && Runs(t, sys, moves, final) && moves != []
    requires Undisturbed(t, sys, moves, final, s, base, who)
    ensures forall v, n: nat :: v in who && base <= n ==> !Overtakes(t, sys, moves[0], s, v, n)
    ensures Valid(t, Next(t, sys, moves[0]))
    ensures Undisturbed(t, Next(t, sys, moves[0]), moves[1..], final, s, base, who)
  {
    NextKeepsValid(t, sys, moves[0]);
    hide Valid, Allowed, Next, Overtakes;
    forall v, n: nat | v in who && base <= n
      ensures !Overtakes(t, sys, moves[0], s, v, n)
      ensures !OvertakenIn(t, Next(t, sys, moves[0]), moves[1..], final, s, v, n)
    {
      assert !OvertakenIn(t, sys, moves, final, s, v, n);
    }
  }

  /** A jump of the flood is an overtaking. */
  lemma JumpOvertakes(t: F.Topology, sys: Sys, m: Move, s: nat)
    requires Valid(t, sys) && Allowed(t, sys, m) && m.s == s && m.Read? && Shadow(t, sys, m).Some?
    ensures var e := Shadow(t, sys, m).value; e.Jump? && Overtakes(t, sys, m, s, e.node, e.n)
  {
    ReadSeparates(t, sys, m);
  }

  lemma {:induction false} ShadowsHarmless(t: F.Topology, sys: Sys, moves: seq<Move>, final: Sys, s: nat, base: nat,
                                           who: set<nat>)
    requires Valid(t, sys) && Runs(t, sys, moves, final) && s < t.nodes
    requires forall m :: m in moves ==> Reliable(t, m)
    requires Undisturbed(t, sys, moves, final, s, base, who)
    ensures forall e :: e in Shadows(t, sys, moves, final, s) ==>
              F.Reliable(t, e) || (e.Jump? && (e.n < base || e.node !in who))
    decreases moves
  {
    if moves != [] {
      assert Reliable(t, moves[0]);
      UndisturbedStep(t, sys, moves, final, s, base, who);
      ShadowsHarmless(t, Next(t, sys, moves[0]), moves[1..], final, s, base, who);
      if moves[0].s == s && moves[0].Read? && Shadow(t, sys, moves[0]).Some? {
        JumpOvertakes(t, sys, moves[0], s);
      }
      hide Valid, Allowed, Next, Overtakes, Undisturbed;
    }
  }

  // ----- which broadcasts were really accepted -----

  /** What a node has reached from `base` on it has accepted. */
  ghost predicate Tracks(t: F.Topology, sys: Sys, s: nat, base: nat, who: set<nat>)
    requires Valid(t, sys) && s < t.nodes
  {
    forall v :: v in who && v < t.nodes && base <= sys.rows[v][s] ==> sys.took[v][s] == sys.rows[v][s]
  }

  lemma StepTracks(t: F.Topology, sys: Sys, m: Move, s: nat, base: nat, who: set<nat>)
    requires Valid(t, sys) && Allowed(t, sys, m) && s < t.nodes && Tracks(t, sys, s, base, who)
    requires forall v, n: nat :: v in who && base <= n ==> !Overtakes(t, sys, m, s, v, n)
    ensures Valid(t, Next(t, sys, m)) && Tracks(t, Next(t, sys, m), s, base, who)
  {
    NextKeepsValid(t, sys, m);
    if m.Hear? {
      assert Sent(t, sys, m.s);
    } else if m.Read? {
      ReadSeparates(t, sys, m);
      if m.s == s && Shadow(t, sys, m).Some? { JumpOvertakes(t, sys, m, s); }
    }
    hide F.Copies, Remembers, Sent, Separates;
  }

  lemma {:induction false} RunTracks(t: F.Topology, sys: Sys, moves: seq<Move>, final: Sys, s: nat, base: nat,
                                     who: set<nat>)
    requires Valid(t, sys) && Runs(t, sys, moves, final) && s < t.nodes && Tracks(t, sys, s, base, who)
    requires Undisturbed(t, sys, moves, final, s, base, who)
    ensures Valid(t, final) && Tracks(t, final, s, base, who)
    decreases moves
  {
    if moves != [] {
      UndisturbedStep(t, sys, moves, final, s, base, who);
      StepTracks(t, sys, moves[0], s, base, who);
      hide Valid, Allowed, Next, Overtakes, Undisturbed, Tracks;
      RunTracks(t, Next(t, sys, moves[0]), moves[1..], final, s, base, who);
    }
  }

  /** Nothing is accepted before `base` was sent. */
  lemma StartTracks(t: F.Topology, sys: Sys, s: nat, who: set<nat>)
    requires Valid(t, sys) && s < t.nodes
    ensures Tracks(t, sys, s, |sys.numbers[s]|, who)
  {
    forall v | v in who && v < t.nodes ensures sys.rows[v][s] < |sys.numbers[s]| {
      assert Remembers(t, sys, v, s);
    }
  }

  /** No letter of `s` is read in the run. */
  ghost predicate NoLetters(moves: seq<Move>, s: nat) {
    forall m :: m in moves && m.Read? ==> m.s != s
  }

  lemma {:induction false} NoLettersUndisturbed(t: F.Topology, sys: Sys, moves: seq<Move>, final: Sys, s: nat, v: nat,
                                                n: nat)
    requires Valid(t, sys) && Runs(t, sys, moves, final) && NoLetters(moves, s)
    ensures !OvertakenIn(t, sys, moves, final, s, v, n)
    decreases moves
  {
    if moves != [] {
      assert moves[0] in moves;
      NextKeepsValid(t, sys, moves[0]);
      hide Valid, Allowed, Next;
      NoLettersUndisturbed(t, Next(t, sys, moves[0]), moves[1..], final, s, v, n);
    }
  }

  /** Without letters a node that has reached a broadcast of the run has stored just its number. */
  ghost predicate HoldsRows(t: F.Topology, sys: Sys, s: nat, base: nat)
    requires Valid(t, sys) && s < t.nodes
  {
    forall v :: 0 <= v < t.nodes && base <= sys.rows[v][s] < |sys.numbers[s]| ==>
      sys.held[v][s] == Some(sys.numbers[s][sys.rows[v][s]])
  }

  lemma StepHoldsRows(t: F.Topology, sys: Sys, m: Move, s: nat, base: nat)
    requires Valid(t, sys) && Allowed(t, sys, m) && s < t.nodes && HoldsRows(t, sys, s, base)
    requires m.Read? ==> m.s != s
    ensures Valid(t, Next(t, sys, m)) && HoldsRows(t, Next(t, sys, m), s, base)
  {
    NextKeepsValid(t, sys, m);
    assert Sent(t, sys, m.s);
    forall v | 0 <= v < t.nodes ensures sys.rows[v][s] < |sys.numbers[s]| {
      assert Remembers(t, sys, v, s);
    }
    hide F.Copies, Remembers, Sent, Separates;
  }

  lemma {:induction false} RunHoldsRows(t: F.Topology, sys: Sys, moves: seq<Move>, final: Sys, s: nat, base: nat)
    requires Valid(t, sys) && Runs(t, sys, moves, final) && s < t.nodes && HoldsRows(t, sys, s, base)
    requires NoLetters(moves, s)
    ensures Valid(t, final) && HoldsRows(t, final, s, base)
    decreases moves
  {
    if moves != [] {
      assert moves[0] in moves;
      StepHoldsRows(t, sys, moves[0], s, base);
      hide Valid, Allowed, Next, HoldsRows;
      RunHoldsRows(t, Next(t, sys, moves[0]), moves[1..], final, s, base);
    }
  }

  lemma ViewMeans(t: F.Topology, sys: Sys, s: nat)
    requires Valid(t, sys) && s < t.nodes
    ensures Sized(t, sys) && |View(t, sys, s).last| == t.nodes
    ensures View(t, sys, s).next == |sys.numbers[s]| && View(t, sys, s).flight == sys.flight[s]
    ensures forall v :: 0 <= v < t.nodes ==> View(t, sys, s).last[v] == sys.rows[v][s]
  {
  }

  /** All nodes but the source. */
  function Others(t: F.Topology, s: nat): set<nat> {
    (set v | v in Below(t.nodes)) - {s}
  }

  function Below(n: nat): (r: set<nat>)
    ensures forall v :: v in r <==> 0 <= v < n
  {
    if n == 0 then {} else Below(n - 1) + {n - 1}
  }

  /**
   Coverage.  Once a source has sent a broadcast over fixed, reliable channels and nothing of
   it is in flight, every other connected node has accepted the source's newest broadcast
   last, in whatever order copies arrived, wherever the source's numbers started and however
   many calls failed for their size, if no letter overtook a broadcast of the run.
   */
  lemma BroadcastsCover(t: F.Topology, sys: Sys, moves: seq<Move>, final: Sys, s: nat, v: nat)
    requires Valid(t, sys) && Runs(t, sys, moves, final)
    requires forall m :: m in moves ==> Reliable(t, m)
    requires s < t.nodes && F.Connected(t, s, v) && v != s
    requires Sized(t, final) && |sys.numbers[s]| < |final.numbers[s]| && final.flight[s] == multiset{}
    requires Undisturbed(t, sys, moves, final, s, |sys.numbers[s]|, Others(t, s))
    ensures v < t.nodes && final.rows[v][s] == final.took[v][s] == |final.numbers[s]| - 1
  {
    var base := |sys.numbers[s]|;
    StartTracks(t, sys, s, Others(t, s));
    RunTracks(t, sys, moves, final, s, base, Others(t, s));
    ReachesNewest(t, sys, moves, final, s, v);
    hide Valid, Runs, Undisturbed, Sized;
  }

  lemma ReachesNewest(t: F.Topology, sys: Sys, moves: seq<Move>, final: Sys, s: nat, v: nat)
    requires Valid(t, sys) && Runs(t, sys, moves, final)
    requires forall m :: m in moves ==> Reliable(t, m)
    requires s < t.nodes && F.Connected(t, s, v) && v != s
    requires Sized(t, final) && |sys.numbers[s]| < |final.numbers[s]| && final.flight[s] == multiset{}
    requires Undisturbed(t, sys, moves, final, s, |sys.numbers[s]|, Others(t, s))
    ensures v < t.nodes && final.rows[v][s] == |final.numbers[s]| - 1
  {
    var base := |sys.numbers[s]|;
    RunRefines(t, sys, moves, final, s);
    ShadowsHarmless(t, sys, moves, final, s, base, Others(t, s));
    ViewMeans(t, sys, s);
    ViewMeans(t, final, s);
    ShadowNodes(t, sys, moves, final, s);
    hide Valid, Runs, Undisturbed, Shadows, F.Reaches, F.Core, View, F.Reliable;
    forall e | e in Shadows(t, sys, moves, final, s) ensures F.Harmless(t, s, base, e) {
      assert e.Jump? ==> e.node < t.nodes;
    }
    F.Coverage(t, s, false, View(t, sys, s), Shadows(t, sys, moves, final, s), View(t, final, s), v);
  }

  lemma {:induction false} ShadowNodes(t: F.Topology, sys: Sys, moves: seq<Move>, final: Sys, s: nat)
    requires Valid(t, sys) && Runs(t, sys, moves, final)
    ensures forall e :: e in Shadows(t, sys, moves, final, s) && e.Jump? ==> e.node < t.nodes
    decreases moves
  {
    if moves != [] {
      NextKeepsValid(t, sys, moves[0]);
      ShadowNodes(t, Next(t, sys, moves[0]), moves[1..], final, s);
      if moves[0].Read? { ReadSeparates(t, sys, moves[0]); }
      hide Valid, Next;
    }
  }

  /** If the source only broadcasts, what every such node has stored is that broadcast's sequence. */
  lemma BroadcastsCoverAlone(t: F.Topology, sys: Sys, moves: seq<Move>, final: Sys, s: nat, v: nat)
    requires Valid(t, sys) && Runs(t, sys, moves, final)
    requires forall m :: m in moves ==> Reliable(t, m)
    requires s < t.nodes && F.Connected(t, s, v) && v != s
    requires Sized(t, final) && |sys.numbers[s]| < |final.numbers[s]| && final.flight[s] == multiset{}
    requires NoLetters(moves, s)
    ensures v < t.nodes
    ensures LastOf(final.peers[v].sequences, s) == Some(Wrap(final.numbers[s][|final.numbers[s]| - 1]))
  {
    forall u, n: nat ensures !OvertakenIn(t, sys, moves, final, s, u, n) {
      NoLettersUndisturbed(t, sys, moves, final, s, u, n);
    }
    BroadcastsCover(t, sys, moves, final, s, v);
    StartHoldsRows(t, sys, s);
    RunHoldsRows(t, sys, moves, final, s, |sys.numbers[s]|);
    hide Runs, OvertakenIn, Undisturbed;
    HeldIsStored(t, final, s, |sys.numbers[s]|, v);
  }

  lemma StartHoldsRows(t: F.Topology, sys: Sys, s: nat)
    requires Valid(t, sys) && s < t.nodes
    ensures HoldsRows(t, sys, s, |sys.numbers[s]|)
  {
    forall u | 0 <= u < t.nodes ensures sys.rows[u][s] < |sys.numbers[s]| {
      assert Remembers(t, sys, u, s);
    }
  }

  lemma HeldIsStored(t: F.Topology, sys: Sys, s: nat, base: nat, v: nat)
    requires Valid(t, sys) && s < t.nodes && v < t.nodes && HoldsRows(t, sys, s, base)
    requires base <= sys.rows[v][s] == |sys.numbers[s]| - 1
    ensures LastOf(sys.peers[v].sequences, s) == Some(Wrap(sys.numbers[s][|sys.numbers[s]| - 1]))
  {
    assert Remembers(t, sys, v, s);
  }

  // ----- exactly when the newest broadcast reaches everyone -----

  /** `v` has stored a number that broadcast `n` does not exceed, without having accepted it last. */
  ghost predicate Missed(t: F.Topology, sys: Sys, s: nat, v: nat, n: nat)
    requires Valid(t, sys) && s < t.nodes && v < t.nodes
  {
    n <= sys.rows[v][s] && sys.took[v][s] != n
  }

  lemma OvertakingMisses(t: F.Topology, sys: Sys, m: Move, s: nat, v: nat, n: nat)
    requires Valid(t, sys) && Allowed(t, sys, m) && s < t.nodes && v < t.nodes
    requires Overtakes(t, sys, m, s, v, n)
    ensures Valid(t, Next(t, sys, m)) && Missed(t, Next(t, sys, m), s, v, n)
  {
    NextKeepsValid(t, sys, m);
    ReadSeparates(t, sys, m);
    assert Remembers(t, sys, v, s) && Sent(t, sys, s);
  }

  lemma MissedStaysMissed(t: F.Topology, sys: Sys, m: Move, s: nat, v: nat, n: nat)
    requires Valid(t, sys) && Allowed(t, sys, m) && s < t.nodes && v < t.nodes && Missed(t, sys, s, v, n)
    ensures Valid(t, Next(t, sys, m)) && Missed(t, Next(t, sys, m), s, v, n)
  {
    NextKeepsValid(t, sys, m);
    if m.Hear? {
      Decides(t, sys, m);
    } else if m.Read? {
      ReadSeparates(t, sys, m);
    }
    hide F.Copies, Remembers, Sent, Separates;
  }

  lemma {:induction false} RunStaysMissed(t: F.Topology, sys: Sys, moves: seq<Move>, final: Sys, s: nat, v: nat, n: nat)
    requires Valid(t, sys) && Runs(t, sys, moves, final) && s < t.nodes && v < t.nodes && Missed(t, sys, s, v, n)
    ensures Valid(t, final) && Missed(t, final, s, v, n)
    decreases moves
  {
    if moves != [] {
      MissedStaysMissed(t, sys, moves[0], s, v, n);
      hide Valid, Allowed, Next, Missed;
      RunStaysMissed(t, Next(t, sys, moves[0]), moves[1..], final, s, v, n);
    }
  }

  /** A broadcast that a letter overtook at a node is never accepted there. */
  lemma {:induction false} OvertakenNeverTaken(t: F.Topology, sys: Sys, moves: seq<Move>, final: Sys, s: nat, v: nat,
                                               n: nat)
    requires Valid(t, sys) && Runs(t, sys, moves, final) && s < t.nodes && v < t.nodes
    requires OvertakenIn(t, sys, moves, final, s, v, n)
    ensures Valid(t, final) && Missed(t, final, s, v, n)
    decreases moves
  {
    var next := Next(t, sys, moves[0]);
    if Overtakes(t, sys, moves[0], s, v, n) {
      OvertakingMisses(t, sys, moves[0], s, v, n);
      RunStaysMissed(t, next, moves[1..], final, s, v, n);
    } else {
      NextKeepsValid(t, sys, moves[0]);
      hide Valid, Allowed, Next, Missed, Overtakes;
      OvertakenNeverTaken(t, next, moves[1..], final, s, v, n);
    }
  }

  /** Only broadcasts that were sent can be overtaken. */
  lemma {:induction false} OvertakenWasSent(t: F.Topology, sys: Sys, moves: seq<Move>, final: Sys, s: nat, v: nat,
                                            n: nat)
    requires Valid(t, sys) && Runs(t, sys, moves, final) && s < t.nodes && v < t.nodes
    requires OvertakenIn(t, sys, moves, final, s, v, n)
    ensures Valid(t, final) && n < |final.numbers[s]|
  {
    OvertakenNeverTaken(t, sys, moves, final, s, v, n);
    assert Remembers(t, final, v, s);
  }

  /**
   Exactly when.  On a connected network with fixed, reliable channels, a source's single new
   broadcast is accepted by every other node by the time nothing of it is in flight, if and
   only if no letter overtook it at any of them.
   */
  lemma CoversExactly(t: F.Topology, sys: Sys, moves: seq<Move>, final: Sys, s: nat)
    requires Valid(t, sys) && Runs(t, sys, moves, final)
    requires forall m :: m in moves ==> Reliable(t, m)
    requires s < t.nodes && forall v :: 0 <= v < t.nodes ==> F.Connected(t, s, v)
    requires Sized(t, final) && |final.numbers[s]| == |sys.numbers[s]| + 1 && final.flight[s] == multiset{}
    ensures (forall v :: v in Others(t, s) ==> final.took[v][s] == |sys.numbers[s]|)
            <==> forall v :: v in Others(t, s) ==> !OvertakenIn(t, sys, moves, final, s, v, |sys.numbers[s]|)
  {
    var base := |sys.numbers[s]|;
    forall v | v in Others(t, s) && OvertakenIn(t, sys, moves, final, s, v, base)
      ensures final.took[v][s] != base
    {
      OvertakenNeverTaken(t, sys, moves, final, s, v, base);
    }
    if forall v :: v in Others(t, s) ==> !OvertakenIn(t, sys, moves, final, s, v, base) {
      forall v, n: nat | v in Others(t, s) && base <= n ensures !OvertakenIn(t, sys, moves, final, s, v, n) {
        if OvertakenIn(t, sys, moves, final, s, v, n) {
          OvertakenWasSent(t, sys, moves, final, s, v, n);
        }
      }
      forall v | v in Others(t, s) ensures final.took[v][s] == base {
        BroadcastsCover(t, sys, moves, final, s, v);
      }
    }
  }

  /**
   The newest broadcast's sequence is the last number the source has taken exactly when it took
   none since, for a letter or a failed call, up to whole turns of the counter.
   */
  lemma NewestIsLastTaken(t: F.Topology, sys: Sys, s: nat)
    requires Valid(t, sys) && s < t.nodes && sys.numbers[s] != []
    ensures var since := sys.clock[s] - 1 - sys.numbers[s][|sys.numbers[s]| - 1];
            && 0 <= since
            && (Wrap(sys.numbers[s][|sys.numbers[s]| - 1]) == Wrap(sys.peers[s].sendSequence - 1)
                <==> since % MODULUS == 0)
  {
    assert Sent(t, sys, s);
    var newest := sys.numbers[s][|sys.numbers[s]| - 1];
    WrapPrevious(sys.clock[s]);
    WrapDistance(sys.clock[s] - 1, newest);
    SameResidue(Wrap(sys.clock[s] - 1), Wrap(newest));
  }

  lemma SameResidue(a: uint32, b: uint32)
    ensures a == b <==> (a - b) % MODULUS == 0
  {
  }

  lemma WrapPrevious(n: int)
    ensures Wrap(Wrap(n) - 1) == Wrap(n - 1)
  {
  }

  // ----- what a broadcast costs -----

  /** Over any run, with losses, one broadcast puts at most 2E - n + deg(source) copies on channels. */
  lemma BroadcastSendBound(t: F.Topology, sys: Sys, moves: seq<Move>, final: Sys, s: nat, n: nat, channels: nat)
    requires Valid(t, sys) && Runs(t, sys, moves, final) && s < t.nodes && |sys.numbers[s]| <= n
    requires F.Channels(t, channels) && forall v :: 0 <= v < t.nodes ==> t.Ports(v) != {}
    ensures F.Core(t, s, View(t, sys, s)) && Valid(t, final)
    ensures F.Reaches(t, s, false, View(t, sys, s), Shadows(t, sys, moves, final, s), View(t, final, s))
    ensures F.CountRun(t, s, false, View(t, sys, s), Shadows(t, sys, moves, final, s), View(t, final, s), n,
                       F.Tally(0, 0, {})).cost
            <= 2 * channels - t.nodes + |t.Ports(s)|
  {
    RunRefines(t, sys, moves, final, s);
    F.SendBound(t, s, false, View(t, sys, s), Shadows(t, sys, moves, final, s), View(t, final, s), n, channels);
  }

  /**
   Over fixed reliable channels a single broadcast of a connected network, which no letter
   overtook, costs exactly 2E - n + 1 copies, and deg(source) - 1 more if and only if the source
   took its own echo.
   */
  lemma BroadcastExactCost(t: F.Topology, sys: Sys, moves: seq<Move>, final: Sys, s: nat, channels: nat)
    requires Valid(t, sys) && Runs(t, sys, moves, final) && s < t.nodes
    requires forall m :: m in moves ==> Reliable(t, m)
    requires Sized(t, final) && |final.numbers[s]| == |sys.numbers[s]| + 1 && final.flight[s] == multiset{}
    requires Undisturbed(t, sys, moves, final, s, |sys.numbers[s]|, Below(t.nodes))
    requires F.Channels(t, channels) && forall v :: 0 <= v < t.nodes ==> F.Connected(t, s, v)
    ensures F.Core(t, s, View(t, sys, s)) && Valid(t, final)
    ensures F.Reaches(t, s, false, View(t, sys, s), Shadows(t, sys, moves, final, s), View(t, final, s))
    ensures F.CountRun(t, s, false, View(t, sys, s), Shadows(t, sys, moves, final, s), View(t, final, s),
                       |sys.numbers[s]|, F.Tally(0, 0, {})).cost
            == 2 * channels - t.nodes + 1
               + if final.took[s][s] == |sys.numbers[s]| then |t.Ports(s)| - 1 else 0
  {
    var base := |sys.numbers[s]|;
    StartTracks(t, sys, s, Below(t.nodes));
    RunTracks(t, sys, moves, final, s, base, Below(t.nodes));
    TakenIsReached(t, final, s, base);
    RunRefines(t, sys, moves, final, s);
    ShadowsHarmless(t, sys, moves, final, s, base, Below(t.nodes));
    ShadowNodes(t, sys, moves, final, s);
    ViewMeans(t, sys, s);
    ViewMeans(t, final, s);
    hide Valid, Runs, Undisturbed, Shadows, F.Reaches, F.Core, View, F.Reliable;
    forall e | e in Shadows(t, sys, moves, final, s) ensures F.Steady(t, base, e) {
      assert e.Jump? ==> e.node < t.nodes;
    }
    F.ExactCost(t, s, false, View(t, sys, s), Shadows(t, sys, moves, final, s), View(t, final, s), channels);
  }

  lemma TakenIsReached(t: F.Topology, sys: Sys, s: nat, base: nat)
    requires Valid(t, sys) && s < t.nodes && Tracks(t, sys, s, base, Below(t.nodes))
    requires |sys.numbers[s]| == base + 1
    ensures sys.rows[s][s] == base <==> sys.took[s][s] == base
  {
    assert Remembers(t, sys, s, s);
  }

  // ----- a letter that cuts a node off -----

  /** Three nodes in a row, with the channel ends 0 - 1 and 2 - 3. */
  function Line(): F.Topology {
    F.Topology(3, [0, 1, 1, 2], [1, 0, 3, 2])
  }

  const ENDS: set<nat> := {0, 1, 2, 3}
  const CALL: Move := Broadcast(0, 0, ENDS)
  const WRITE: Move := Send(0, 1, 0)
  const OVERTAKE: Move := Read(0, 0)
  const LATE: Move := Hear(0, F.Packet(1, 0), ENDS)

  lemma LinePorts()
    ensures Line().Valid() && Line().Ports(0) == {0} && Line().Ports(1) == {1, 2} && Line().Ports(2) == {3}
    ensures F.Connected(Line(), 0, 2)
  {
    assert F.Linked(Line(), 0, [0, 2], 2) by {
      assert [0, 2][1..] == [2] && [2][1..] == [];
      assert F.Linked(Line(), 2, [], 2) && F.Linked(Line(), 1, [2], 2);
    }
  }

  lemma CallStep()
    ensures Line().Valid() && Valid(Line(), Fresh(Line(), (v: Id) => 0))
    ensures var sys := Fresh(Line(), (v: Id) => 0);
            var sys' := Next(Line(), sys, CALL);
            && sys'.numbers[0] == [0] && sys'.clock[0] == 1 && sys'.letters == sys.letters
            && sys'.held == sys.held && sys'.rows == sys.rows && sys'.took == sys.took
            && sys'.flight == sys.flight[0 := multiset{F.Packet(1, 0)}]
  {
    LinePorts();
    FreshIsValid(Line(), (v: Id) => 0);
    FirstCopies();
    var sys := Fresh(Line(), (v: Id) => 0);
    assert sys.numbers[0] == [] && sys.clock[0] == 0 && sys.flight[0] == multiset{};
    hide F.Copies;
    assert [] + [sys.clock[0]] == [0];
    assert multiset{} + multiset{F.Packet(1, 0)} == multiset{F.Packet(1, 0)};
  }

  lemma FirstCopies()
    requires Line().Valid()
    ensures F.Copies(Line(), Line().Ports(0) * ENDS, 0) == multiset{F.Packet(1, 0)}
  {
    LinePorts();
    assert Line().Ports(0) * ENDS == {0};
    var copies := F.Copies(Line(), {0}, 0);
    F.CopiesAre(Line(), {0}, 0);
    forall pk: F.Packet ensures copies[pk] == multiset{F.Packet(1, 0)}[pk] {
    }
  }

  /**
   The source broadcasts, then writes to its neighbour, and the letter comes first.  Then the
   neighbour rejects the broadcast and does not relay it, and the node behind it never hears
   of it, although all is quiet, nothing was lost and the network is connected.
   */
  lemma LetterCutsOff()
    ensures Line().Valid() && F.Connected(Line(), 0, 2) && Valid(Line(), Fresh(Line(), (v: Id) => 0))
    ensures exists final ::
              && Runs(Line(), Fresh(Line(), (v: Id) => 0), [CALL, WRITE, OVERTAKE, LATE], final) && Sized(Line(), final)
              && |final.numbers[0]| == 1 && final.flight[0] == multiset{}
              && final.took[1][0] == -1 && LastOf(final.peers[2].sequences, 0) == None
  {
    LinePorts();
    CallStep();
    var t, sys0 := Line(), Fresh(Line(), (v: Id) => 0);
    assert sys0.letters[0] == [] && sys0.held[1][0] == None && sys0.held[2][0] == None;
    assert sys0.took[1][0] == -1 && |sys0.flight| == 3;
    hide Next, Fresh, Sent, Remembers, Runs;
    var sys1 := Next(t, sys0, CALL);
    NextKeepsValid(t, sys0, CALL);
    WriteStep(sys1);
    var sys2 := Next(t, sys1, WRITE);
    NextKeepsValid(t, sys1, WRITE);
    ReadStep(sys2);
    var sys3 := Next(t, sys2, OVERTAKE);
    NextKeepsValid(t, sys2, OVERTAKE);
    LateStep(sys3);
    var final := Next(t, sys3, LATE);
    NextKeepsValid(t, sys3, LATE);
    NothingStored(t, final, 2, 0);
    FourMoves(t, sys0, CALL, WRITE, OVERTAKE, LATE);
  }

  lemma NothingStored(t: F.Topology, sys: Sys, v: nat, s: nat)
    requires Valid(t, sys) && v < t.nodes && s < t.nodes && sys.held[v][s] == None
    ensures LastOf(sys.peers[v].sequences, s) == None
  {
    assert Remembers(t, sys, v, s);
  }

  /** The letter takes the next number. */
  lemma WriteStep(sys: Sys)
    requires Line().Valid() && Valid(Line(), sys) && sys.letters[0] == [] && sys.clock[0] == 1
    ensures Allowed(Line(), sys, WRITE)
    ensures var sys' := Next(Line(), sys, WRITE);
            && sys'.letters[0] == [Letter(1, 1)] && sys'.numbers == sys.numbers && sys'.flight == sys.flight
            && sys'.held == sys.held && sys'.took == sys.took
  {
  }

  /** The letter, numbered 1, is accepted: nothing of its source is stored yet. */
  lemma ReadStep(sys: Sys)
    requires Line().Valid() && Valid(Line(), sys)
    requires sys.letters[0] == [Letter(1, 1)] && sys.numbers[0] == [0] && sys.held[1][0] == None
    ensures Allowed(Line(), sys, OVERTAKE)
    ensures var sys' := Next(Line(), sys, OVERTAKE);
            && sys'.numbers == sys.numbers && sys'.flight == sys.flight
            && sys'.held[1][0] == Some(1) && sys'.rows[1][0] == 0 && sys'.took == sys.took
            && sys'.held[2] == sys.held[2]
  {
    assert Remembers(Line(), sys, 1, 0);
    PassesExactly(sys.peers[1], 0, None, 1);
    var row := sys.took[1];
    assert row[0 := row[0]] == row && sys.took[1 := row] == sys.took;
  }

  /** The broadcast, numbered 0, is not: the stored number is 1. */
  lemma LateStep(sys: Sys)
    requires Line().Valid() && Valid(Line(), sys)
    requires sys.flight[0] == multiset{F.Packet(1, 0)} && sys.numbers[0] == [0]
    requires sys.held[1][0] == Some(1) && sys.rows[1][0] == 0
    ensures Allowed(Line(), sys, LATE) && Next(Line(), sys, LATE) == sys.(flight := sys.flight[0 := multiset{}])
  {
    assert Sent(Line(), sys, 0) && Remembers(Line(), sys, 1, 0);
    PassesExactly(sys.peers[1], 0, Some(1), 0);
  }

  lemma FourMoves(t: F.Topology, sys: Sys, a: Move, b: Move, c: Move, d: Move)
    requires Valid(t, sys) && Allowed(t, sys, a)
    requires Valid(t, Next(t, sys, a)) && Allowed(t, Next(t, sys, a), b)
    requires Valid(t, Next(t, Next(t, sys, a), b)) && Allowed(t, Next(t, Next(t, sys, a), b), c)
    requires Valid(t, Next(t, Next(t, Next(t, sys, a), b), c)) && Allowed(t, Next(t, Next(t, Next(t, sys, a), b), c), d)
    ensures Runs(t, sys, [a, b, c, d], Next(t, Next(t, Next(t, Next(t, sys, a), b), c), d))
  {
    assert [a, b, c, d][1..] == [b, c, d] && [b, c, d][1..] == [c, d] && [c, d][1..] == [d] && [d][1..] == [];
    hide Next, Valid, Allowed;
    var s1 := Next(t, sys, a);
    var s2 := Next(t, s1, b);
    var s3 := Next(t, s2, c);
    NextKeepsValid(t, s3, d);
    assert Runs(t, s3, [d], Next(t, s3, d));
    assert Runs(t, s2, [c, d], Next(t, s3, d));
    assert Runs(t, s1, [b, c, d], Next(t, s3, d));
  }
}
