/**
 A network of nodes that flood link states.  Every decision is the one `LinkState` takes
 on 32-bit sequences; true numbers are kept beside it as history, to say which
 announcement is which.
 */
module StateNetwork {
  import opened Common
  import opened Sequence
  import opened LinkState
  import opened Limits
  import opened Merge
  import F = Flood

  /** `book[s][n]` is the state `s` announced under number `n`; number 0 is the seed, never sent. */
  type Book = seq<seq<State>>

  /** `row[s]` is the number of the state a node stores for `s`, or -1. */
  type Row = seq<int>

  ghost predicate BookOk(book: Book) {
    forall s, n :: 0 <= s < |book| && 0 <= n < |book[s]| ==>
      book[s][n].id == s && book[s][n].sequence == Wrap(n - 1) && book[s][n].key == book[s][0].key
  }

  /** A node stores announcements from the book, and its own newest one. */
  ghost predicate Stores(book: Book, s: nat, k: int, stored: Option<State>)
    requires s < |book|
  {
    if k == -1 then stored == None else 0 <= k < |book[s]| && stored == Some(book[s][k])
  }

  ghost predicate NodeOk(book: Book, v: nat, row: Row, g: Local) {
    && v < |book| == |row| && Shape(g) && g.self == v
    && book[v] != [] && row[v] == |book[v]| - 1 && g.next == Wrap(|book[v]| - 1)
    && (forall s :: 0 <= s < |book| ==> Stores(book, s, row[s], StoredAt(g.vertices, s)))
    && (forall id :: id in g.vertices && |book| <= id ==> g.vertices[id].state == None)
  }

  /** The node's clock can tell the arriving number from the one it stores. */
  ghost predicate Timely(row: Row, s: nat, n: nat)
    requires s < |row|
  {
    row[s] >= 0 ==> InWindow(n - row[s])
  }

  function Append(book: Book, v: nat, announced: Option<State>): Book
    requires v < |book|
  {
    if announced.Some? then book[v := book[v] + [announced.value]] else book
  }

  /** The node's row after it heard number `n` of `s` and perhaps announced itself. */
  function RowAfter(row: Row, v: nat, s: nat, n: nat, announced: Option<State>): Row
    requires v < |row| && s < |row|
  {
    var heard := if row[s] < n then row[s := n] else row;
    if announced.Some? then heard[v := row[v] + 1] else heard
  }

  /** The node decides on wrapped sequences as it would on true numbers. */
  lemma Decides(book: Book, v: nat, row: Row, g: Local, s: nat, n: nat)
    requires BookOk(book) && NodeOk(book, v, row, g) && s < |book| && n < |book[s]| && Timely(row, s, n)
    ensures Stale(g, book[s][n]) <==> n <= row[s]
    ensures s != v && !Stale(g, book[s][n]) ==> (Provokes(g, book[s][n]) <==> row[s] == -1)
  {
    assert Stores(book, s, row[s], StoredAt(g.vertices, s));
    if row[s] >= 0 {
      CompareExact(n - 1, row[s] - 1);
    }
  }

  /** An echo of one of the node's own announcements is always stale. */
  lemma EchoIsStale(book: Book, v: nat, row: Row, g: Local, n: nat, neighbors: set<Id>)
    requires BookOk(book) && NodeOk(book, v, row, g) && n < |book[v]| && Timely(row, v, n)
    ensures Stale(g, book[v][n]) && Possible(g, Insert(book[v][n], neighbors))
  {
    Decides(book, v, row, g, v, n);
    assert Stores(book, v, row[v], StoredAt(g.vertices, v));
  }

  lemma AppendKeepsBook(book: Book, v: nat, row: Row, g: Local, neighbors: set<Id>)
    requires BookOk(book) && NodeOk(book, v, row, g)
    ensures BookOk(Append(book, v, Some(Announcement(g, neighbors))))
  {
    assert Stores(book, v, row[v], StoredAt(g.vertices, v));
    assert LocalReady(g);
  }

  /** What another node announces does not disturb what this one stores. */
  lemma AppendKeepsNode(book: Book, u: nat, announced: Option<State>, v: nat, row: Row, g: Local)
    requires NodeOk(book, v, row, g) && u < |book| && u != v
    ensures NodeOk(Append(book, u, announced), v, row, g)
  {
    var book' := Append(book, u, announced);
    forall s | 0 <= s < |book'| ensures Stores(book', s, row[s], StoredAt(g.vertices, s)) {
      assert Stores(book, s, row[s], StoredAt(g.vertices, s));
    }
  }

  /** What a node stores after it took a state over, one origin at a time. */
  lemma MergedStored(g: Local, s: State, neighbors: set<Id>, id: Id)
    requires s.id != g.self
    ensures StoredAt(Merged(g, s, neighbors), id)
            == if id == s.id then Some(s)
               else if id == g.self && Provokes(g, s) then Some(Announcement(g, neighbors))
               else StoredAt(g.vertices, id)
  {
  }

  /** The same in numbers: the row after the step says what is stored after the step. */
  lemma RowSaysStored(book: Book, v: nat, row: Row, g: Local, s: nat, n: nat, neighbors: set<Id>, x: nat)
    requires BookOk(book) && NodeOk(book, v, row, g) && s < |book| && n < |book[s]| && x < |book|
    requires s != v && row[s] < n && !Stale(g, book[s][n])
    ensures var a := Emits(g, Insert(book[s][n], neighbors));
            Stores(Append(book, v, a), x, RowAfter(row, v, s, n, a)[x],
                   StoredAt(Merged(g, book[s][n], neighbors), x))
  {
    assert Stores(book, x, row[x], StoredAt(g.vertices, x));
    MergedStored(g, book[s][n], neighbors, x);
  }

  lemma NodeAfter(book: Book, v: nat, row: Row, g: Local, s: nat, n: nat, neighbors: set<Id>, g': Local)
    requires BookOk(book) && NodeOk(book, v, row, g) && s < |book| && n < |book[s]|
    requires s != v && row[s] < n && !Stale(g, book[s][n])
    requires Shape(g') && g'.self == v && g'.vertices == Merged(g, book[s][n], neighbors)
    requires g'.next == if Provokes(g, book[s][n]) then Wrap(g.next + 1) else g.next
    ensures var a := Emits(g, Insert(book[s][n], neighbors));
            NodeOk(Append(book, v, a), v, RowAfter(row, v, s, n, a), g')
  {
    var a := Emits(g, Insert(book[s][n], neighbors));
    var book', row' := Append(book, v, a), RowAfter(row, v, s, n, a);
    assert g'.next == Wrap(|book'[v]| - 1) && row'[v] == |book'[v]| - 1 by {
      WrapNext(|book[v]| - 1);
    }
    hide Merged, Provokes, Emits, Shape, Stale;
    assert forall x :: 0 <= x < |book'| ==> Stores(book', x, row'[x], StoredAt(g'.vertices, x)) by {
      forall x | 0 <= x < |book| ensures Stores(book', x, row'[x], StoredAt(g'.vertices, x)) {
        RowSaysStored(book, v, row, g, s, n, neighbors, x);
      }
    }
    forall id | id in g'.vertices && |book| <= id ensures g'.vertices[id].state == None {
      MergedStored(g, book[s][n], neighbors, id);
    }
  }

  lemma NodeHears(route: Router, book: Book, v: nat, row: Row, g: Local, s: nat, n: nat, neighbors: set<Id>)
    requires BookOk(book) && NodeOk(book, v, row, g) && s < |book| && n < |book[s]| && Timely(row, s, n)
    requires s != v && row[s] < n
    ensures var e := Insert(book[s][n], neighbors);
            NodeOk(Append(book, v, Emits(g, e)), v, RowAfter(row, v, s, n, Emits(g, e)), React(route, g, e))
  {
    var state := book[s][n];
    Decides(book, v, row, g, s, n);
    ReactShape(route, g, Insert(state, neighbors));
    InsertResult(route, g, state, neighbors);
    UpdateKeepsSelf(route, g, state, neighbors);
    NodeAfter(book, v, row, g, s, n, neighbors, React(route, g, Insert(state, neighbors)));
  }

  /** The graph after a change of neighbours that was announced. */
  lemma NeighborChangeResult(route: Router, g: Local, neighbors: set<Id>)
    requires Shape(g) && g.vertices[g.self].edges != neighbors
    ensures var g' := React(route, g, NeighborChange(neighbors));
            && Emits(g, NeighborChange(neighbors)) == Some(Announcement(g, neighbors))
            && g'.self == g.self && g'.next == Wrap(g.next + 1)
            && forall id :: StoredAt(g'.vertices, id)
                 == if id == g.self then Some(Announcement(g, neighbors)) else StoredAt(g.vertices, id)
  {
    AnnounceResult(route, SetEdges(route, g, g.self, neighbors), neighbors);
  }

  lemma NodeAnnounces(route: Router, book: Book, v: nat, row: Row, g: Local, neighbors: set<Id>)
    requires BookOk(book) && NodeOk(book, v, row, g) && g.vertices[v].edges != neighbors
    ensures var e := NeighborChange(neighbors);
            NodeOk(Append(book, v, Emits(g, e)), v, row[v := row[v] + 1], React(route, g, e))
  {
    var e := NeighborChange(neighbors);
    var g', book', row' := React(route, g, e), Append(book, v, Emits(g, e)), row[v := row[v] + 1];
    ReactShape(route, g, e);
    NeighborChangeResult(route, g, neighbors);
    WrapNext(|book[v]| - 1);
    forall x | 0 <= x < |book| ensures Stores(book', x, row'[x], StoredAt(g'.vertices, x)) {
      assert Stores(book, x, row[x], StoredAt(g.vertices, x));
    }
    forall id | id in g'.vertices && |book| <= id ensures g'.vertices[id].state == None {
      assert StoredAt(g'.vertices, id) == StoredAt(g.vertices, id);
    }
  }

  // ----- the whole network -----

  /** `flight[s]` holds the copies of announcements of `s` that are on their way. */
  datatype Sys = Sys(nodes: seq<Local>, rows: seq<Row>, book: Book, flight: seq<multiset<F.Packet>>)

  /** A copy read by a node, a copy lost, or a change of one node's neighbours. */
  datatype Move =
    | Hear(s: nat, packet: F.Packet, neighbors: set<Id>, open: set<nat>)
    | Miss(s: nat, packet: F.Packet)
    | Rewire(v: nat, neighbors: set<Id>, open: set<nat>)

  ghost predicate Valid(t: F.Topology, sys: Sys) {
    && t.Valid() && |sys.nodes| == |sys.rows| == |sys.book| == |sys.flight| == t.nodes
    && BookOk(sys.book)
    && (forall v :: 0 <= v < t.nodes ==> NodeOk(sys.book, v, sys.rows[v], sys.nodes[v]))
    && (forall s :: 0 <= s < t.nodes ==> FlightOk(t, sys.book, s, sys.flight[s]))
  }

  ghost predicate FlightOk(t: F.Topology, book: Book, s: nat, flight: multiset<F.Packet>)
    requires s < |book|
  {
    forall pk :: pk in flight ==> pk.port < |t.owner| && pk.n < |book[s]|
  }

  /**
   A copy can be heard when it is there and not too far from what its reader stores.  No step
   makes a node announce more neighbours than fit a message: that would end in an exception.
   */
  ghost predicate Allowed(t: F.Topology, sys: Sys, m: Move)
    requires Valid(t, sys)
  {
    match m
    case Hear(s, pk, neighbors, _) =>
      && s < t.nodes && pk in sys.flight[s] && Timely(sys.rows[t.owner[pk.port]], s, pk.n)
      && !Throws(sys.nodes[t.owner[pk.port]], Insert(sys.book[s][pk.n], neighbors))
    case Miss(s, pk) => s < t.nodes && pk in sys.flight[s]
    case Rewire(v, neighbors, _) => v < t.nodes && !Throws(sys.nodes[v], NeighborChange(neighbors))
  }

  /** Copies of `v`'s announcement, if it made one, on its open channels. */
  ghost function Spread(t: F.Topology, flight: seq<multiset<F.Packet>>, v: nat, n: nat,
                        announced: Option<State>, open: set<nat>): seq<multiset<F.Packet>>
    requires t.Valid() && v < |flight|
  {
    if announced.Some? then flight[v := flight[v] + F.Copies(t, t.Ports(v) * open, n)] else flight
  }

  ghost function Next(t: F.Topology, route: Router, sys: Sys, m: Move): Sys
    requires Valid(t, sys) && Allowed(t, sys, m)
  {
    match m
    case Hear(s, pk, neighbors, open) =>
      var v := t.owner[pk.port];
      var g, e := sys.nodes[v], Insert(sys.book[s][pk.n], neighbors);
      assert NodeOk(sys.book, v, sys.rows[v], g);
      var announced := Emits(g, e);
      var rest := sys.flight[s] - multiset{pk};
      if Stale(g, e.state) then sys.(flight := sys.flight[s := rest])
      else
        var relayed := sys.flight[s := rest + F.Copies(t, (t.Ports(v) - {pk.port}) * open, pk.n)];
        assert s != v by { HeardIsRemote(t, sys, s, pk, neighbors); }
        Sys(sys.nodes[v := React(route, g, e)],
            sys.rows[v := RowAfter(sys.rows[v], v, s, pk.n, announced)],
            Append(sys.book, v, announced),
            Spread(t, relayed, v, |sys.book[v]|, announced, open))
    case Miss(s, pk) => sys.(flight := sys.flight[s := sys.flight[s] - multiset{pk}])
    case Rewire(v, neighbors, open) =>
      var g, e := sys.nodes[v], NeighborChange(neighbors);
      assert NodeOk(sys.book, v, sys.rows[v], g);
      var announced := Emits(g, e);
      if announced.None? then sys
      else
        Sys(sys.nodes[v := React(route, g, e)],
            sys.rows[v := sys.rows[v][v := sys.rows[v][v] + 1]],
            Append(sys.book, v, announced),
            Spread(t, sys.flight, v, |sys.book[v]|, announced, open))
  }

  lemma HeardIsRemote(t: F.Topology, sys: Sys, s: nat, pk: F.Packet, neighbors: set<Id>)
    requires Valid(t, sys) && s < t.nodes && pk in sys.flight[s]
    requires Timely(sys.rows[t.owner[pk.port]], s, pk.n)
    requires !Stale(sys.nodes[t.owner[pk.port]], sys.book[s][pk.n])
    ensures s != t.owner[pk.port]
  {
    var v := t.owner[pk.port];
    if s == v {
      assert NodeOk(sys.book, v, sys.rows[v], sys.nodes[v]);
      EchoIsStale(sys.book, v, sys.rows[v], sys.nodes[v], pk.n, neighbors);
    }
  }

  /**
   What a step does to the nodes is what one of them attempts, and nothing is thrown; what it
   announced is the next entry of its list in the book.
   */
  lemma MovesAreAttempts(t: F.Topology, route: Router, sys: Sys, m: Move)
    requires Valid(t, sys) && Allowed(t, sys, m) && !m.Miss?
    ensures var v, e := if m.Hear? then t.owner[m.packet.port] else m.v,
                        if m.Hear? then Insert(sys.book[m.s][m.packet.n], m.neighbors) else NeighborChange(m.neighbors);
            && (if m.Hear? then Receivable(sys.nodes[v], e.state) else LocalReady(sys.nodes[v]))
            && var end, after := Attempt(route, sys.nodes[v], e), Next(t, route, sys, m);
            && !end.thrown && after.nodes == sys.nodes[v := end.local]
            && after.book == match end.sent
                             case None => sys.book
                             case Some(a) => sys.book[v := sys.book[v] + [a]]
  {
    var v := if m.Hear? then t.owner[m.packet.port] else m.v;
    assert NodeOk(sys.book, v, sys.rows[v], sys.nodes[v]);
    if m.Hear? {
      assert Stores(sys.book, v, sys.rows[v][v], StoredAt(sys.nodes[v].vertices, v));
    }
  }

  lemma ReplaceNode(t: F.Topology, sys: Sys, v: nat, g': Local, row': Row, announced: Option<State>,
                    flight': seq<multiset<F.Packet>>)
    requires Valid(t, sys) && v < t.nodes && |flight'| == t.nodes
    requires NodeOk(Append(sys.book, v, announced), v, row', g') && BookOk(Append(sys.book, v, announced))
    requires forall s :: 0 <= s < t.nodes ==> FlightOk(t, Append(sys.book, v, announced), s, flight'[s])
    ensures Valid(t, Sys(sys.nodes[v := g'], sys.rows[v := row'], Append(sys.book, v, announced), flight'))
  {
    var sys' := Sys(sys.nodes[v := g'], sys.rows[v := row'], Append(sys.book, v, announced), flight');
    forall u | 0 <= u < t.nodes ensures NodeOk(sys'.book, u, sys'.rows[u], sys'.nodes[u]) {
      if u != v {
        assert NodeOk(sys.book, u, sys.rows[u], sys.nodes[u]);
        AppendKeepsNode(sys.book, v, announced, u, sys.rows[u], sys.nodes[u]);
      }
    }
  }

  lemma CopiesOk(t: F.Topology, book: Book, s: nat, ports: set<nat>, n: nat)
    requires t.Valid() && s < |book| && n < |book[s]|
    ensures FlightOk(t, book, s, F.Copies(t, ports, n))
  {
    F.CopiesAre(t, ports, n);
  }

  lemma SpreadOk(t: F.Topology, book: Book, flight: seq<multiset<F.Packet>>, v: nat, announced: Option<State>,
                 open: set<nat>)
    requires t.Valid() && |flight| == |book| && v < |book|
    requires forall s :: 0 <= s < |book| ==> FlightOk(t, book, s, flight[s])
    ensures var flight' := Spread(t, flight, v, |book[v]|, announced, open);
            && |flight'| == |flight|
            && forall s :: 0 <= s < |book| ==> FlightOk(t, Append(book, v, announced), s, flight'[s])
  {
    if announced.Some? {
      CopiesOk(t, Append(book, v, announced), v, t.Ports(v) * open, |book[v]|);
      assert forall s :: 0 <= s < |book| ==> FlightOk(t, Append(book, v, announced), s, flight[s]);
    }
  }

  lemma HearKeepsValid(t: F.Topology, route: Router, sys: Sys, m: Move)
    requires Valid(t, sys) && Allowed(t, sys, m) && m.Hear?
    ensures Valid(t, Next(t, route, sys, m))
  {
    var Hear(s, pk, neighbors, open) := m;
    var v := t.owner[pk.port];
    var g, row, e := sys.nodes[v], sys.rows[v], Insert(sys.book[s][pk.n], neighbors);
    assert NodeOk(sys.book, v, row, g);
    if !Stale(g, e.state) {
      HeardIsRemote(t, sys, s, pk, neighbors);
      Decides(sys.book, v, row, g, s, pk.n);
      NodeHears(route, sys.book, v, row, g, s, pk.n, neighbors);
      AppendKeepsBook(sys.book, v, row, g, neighbors);
      CopiesOk(t, sys.book, s, (t.Ports(v) - {pk.port}) * open, pk.n);
      var relayed := sys.flight[s := sys.flight[s] - multiset{pk} + F.Copies(t, (t.Ports(v) - {pk.port}) * open, pk.n)];
      assert forall x :: 0 <= x < t.nodes ==> FlightOk(t, sys.book, x, relayed[x]);
      SpreadOk(t, sys.book, relayed, v, Emits(g, e), open);
      ReplaceNode(t, sys, v, React(route, g, e), RowAfter(row, v, s, pk.n, Emits(g, e)), Emits(g, e),
                  Spread(t, relayed, v, |sys.book[v]|, Emits(g, e), open));
    }
  }

  lemma NextKeepsValid(t: F.Topology, route: Router, sys: Sys, m: Move)
    requires Valid(t, sys) && Allowed(t, sys, m)
    ensures Valid(t, Next(t, route, sys, m))
  {
    match m {
      case Hear(_, _, _, _) => HearKeepsValid(t, route, sys, m);
      case Miss(s, pk) =>
      case Rewire(v, neighbors, open) =>
        var g, row, e := sys.nodes[v], sys.rows[v], NeighborChange(neighbors);
        assert NodeOk(sys.book, v, row, g);
        if Emits(g, e).Some? {
          NodeAnnounces(route, sys.book, v, row, g, neighbors);
          AppendKeepsBook(sys.book, v, row, g, neighbors);
          SpreadOk(t, sys.book, sys.flight, v, Emits(g, e), open);
          ReplaceNode(t, sys, v, React(route, g, e), row[v := row[v] + 1], Emits(g, e),
                      Spread(t, sys.flight, v, |sys.book[v]|, Emits(g, e), open));
        }
    }
  }

  // ----- each origin's announcements flood -----

  /** The network as the flood of one origin sees it. */
  ghost function View(t: F.Topology, sys: Sys, s: nat): F.Net
    requires Valid(t, sys) && s < t.nodes
  {
    F.Net(|sys.book[s]|, seq(t.nodes, v requires 0 <= v < t.nodes => Number(t, sys, v, s)), sys.flight[s])
  }

  ghost function Number(t: F.Topology, sys: Sys, v: nat, s: nat): int
    requires Valid(t, sys) && v < t.nodes && s < t.nodes
  {
    assert NodeOk(sys.book, v, sys.rows[v], sys.nodes[v]);
    sys.rows[v][s]
  }

  lemma ViewCore(t: F.Topology, sys: Sys, s: nat)
    requires Valid(t, sys) && s < t.nodes
    ensures F.Core(t, s, View(t, sys, s))
  {
    forall v | 0 <= v < t.nodes ensures -1 <= Number(t, sys, v, s) < |sys.book[s]| {
      assert NodeOk(sys.book, v, sys.rows[v], sys.nodes[v]);
      assert Stores(sys.book, s, sys.rows[v][s], StoredAt(sys.nodes[v].vertices, s));
      assert NodeOk(sys.book, s, sys.rows[s], sys.nodes[s]);
    }
    assert FlightOk(t, sys.book, s, sys.flight[s]);
  }

  /** The step one origin's flood takes, if any. */
  ghost function Shadow(t: F.Topology, sys: Sys, m: Move, s: nat): Option<F.Event>
    requires Valid(t, sys) && Allowed(t, sys, m) && s < t.nodes
  {
    match m
    case Hear(x, pk, neighbors, open) =>
      var v := t.owner[pk.port];
      if s == x then Some(F.Deliver(pk, open))
      else if s == v && Emits(sys.nodes[v], Insert(sys.book[x][pk.n], neighbors)).Some? then Some(F.Originate(open))
      else None
    case Miss(x, pk) => if s == x then Some(F.Lose(pk)) else None
    case Rewire(v, neighbors, open) =>
      if s == v && Emits(sys.nodes[v], NeighborChange(neighbors)).Some? then Some(F.Originate(open)) else None
  }

  /** One step of the network is, for each origin, one step of its flood or none. */
  ghost predicate Refined(t: F.Topology, route: Router, sys: Sys, m: Move, s: nat)
    requires Valid(t, sys) && Allowed(t, sys, m) && s < t.nodes
  {
    var sys', e := Next(t, route, sys, m), Shadow(t, sys, m, s);
    && Valid(t, sys') && F.Core(t, s, View(t, sys, s))
    && match e
       case None => View(t, sys', s) == View(t, sys, s)
       case Some(e) => F.Enabled(View(t, sys, s), e) && View(t, sys', s) == F.Step(t, s, true, View(t, sys, s), e)
  }

  lemma ViewIs(t: F.Topology, sys: Sys, s: nat, net: F.Net)
    requires Valid(t, sys) && s < t.nodes
    requires net.next == |sys.book[s]| && net.flight == sys.flight[s] && |net.last| == t.nodes
    requires forall v :: 0 <= v < t.nodes ==> net.last[v] == Number(t, sys, v, s)
    ensures View(t, sys, s) == net
  {
  }

  lemma StaleRefines(t: F.Topology, route: Router, sys: Sys, m: Move, s: nat)
    requires Valid(t, sys) && Allowed(t, sys, m) && s < t.nodes && m.Hear?
    requires Stale(sys.nodes[t.owner[m.packet.port]], sys.book[m.s][m.packet.n])
    ensures Refined(t, route, sys, m, s)
  {
    var x, pk, v := m.s, m.packet, t.owner[m.packet.port];
    NextKeepsValid(t, route, sys, m);
    ViewCore(t, sys, s);
    assert NodeOk(sys.book, v, sys.rows[v], sys.nodes[v]);
    Decides(sys.book, v, sys.rows[v], sys.nodes[v], x, pk.n);
    var before, sys' := View(t, sys, s), Next(t, route, sys, m);
    ViewIs(t, sys', s, before.(flight := sys'.flight[s]));
  }

  /** The flood of the state that was accepted: one delivery, taken. */
  lemma TakenRefines(t: F.Topology, route: Router, sys: Sys, m: Move)
    requires Valid(t, sys) && Allowed(t, sys, m) && m.Hear?
    requires !Stale(sys.nodes[t.owner[m.packet.port]], sys.book[m.s][m.packet.n])
    ensures Refined(t, route, sys, m, m.s)
  {
    var s, pk, v := m.s, m.packet, t.owner[m.packet.port];
    NextKeepsValid(t, route, sys, m);
    ViewCore(t, sys, s);
    TakenStep(t, route, sys, m);
    hide React, Emits, Stale, NodeOk, FlightOk, Stores, Throws, F.Copies, Merged, Next;
    var before, sys' := View(t, sys, s), Next(t, route, sys, m);
    ViewIs(t, sys', s, F.Net(before.next, before.last[v := pk.n], sys'.flight[s]));
  }

  /** What the sender's flood sees of the step. */
  lemma TakenStep(t: F.Topology, route: Router, sys: Sys, m: Move)
    requires Valid(t, sys) && Allowed(t, sys, m) && m.Hear?
    requires !Stale(sys.nodes[t.owner[m.packet.port]], sys.book[m.s][m.packet.n])
    requires Valid(t, Next(t, route, sys, m))
    ensures var s, pk, v, sys' := m.s, m.packet, t.owner[m.packet.port], Next(t, route, sys, m);
            && |sys'.book[s]| == |sys.book[s]| && sys.rows[v][s] < pk.n
            && sys'.flight[s] == sys.flight[s] - multiset{pk} + F.Copies(t, (t.Ports(v) - {pk.port}) * m.open, pk.n)
            && forall u :: 0 <= u < t.nodes ==>
                 Number(t, sys', u, s) == if u == v then pk.n else Number(t, sys, u, s)
  {
    var s, pk, v := m.s, m.packet, t.owner[m.packet.port];
    HeardIsRemote(t, sys, s, pk, m.neighbors);
    assert NodeOk(sys.book, v, sys.rows[v], sys.nodes[v]);
    Decides(sys.book, v, sys.rows[v], sys.nodes[v], s, pk.n);
    hide React, Emits, Stale, NodeOk, FlightOk, Stores, Throws, F.Copies;
  }

  /** The floods of the other origins: the node that accepted may have announced itself. */
  lemma AnnouncedRefines(t: F.Topology, route: Router, sys: Sys, m: Move, s: nat)
    requires Valid(t, sys) && Allowed(t, sys, m) && s < t.nodes && m.Hear? && s != m.s
    requires !Stale(sys.nodes[t.owner[m.packet.port]], sys.book[m.s][m.packet.n])
    ensures Refined(t, route, sys, m, s)
  {
    var v := t.owner[m.packet.port];
    NextKeepsValid(t, route, sys, m);
    ViewCore(t, sys, s);
    AnnouncedStep(t, route, sys, m, s);
    hide React, NodeOk, FlightOk, Stores, Throws, Stale, F.Copies, Next;
    var before, sys' := View(t, sys, s), Next(t, route, sys, m);
    if s == v && Emits(sys.nodes[v], Insert(sys.book[m.s][m.packet.n], m.neighbors)).Some? {
      ViewIs(t, sys', s, F.Net(before.next + 1, before.last[v := before.next], sys'.flight[s]));
    } else {
      ViewIs(t, sys', s, before);
    }
  }

  /** What the floods of the other origins see of the step. */
  lemma AnnouncedStep(t: F.Topology, route: Router, sys: Sys, m: Move, s: nat)
    requires Valid(t, sys) && Allowed(t, sys, m) && s < t.nodes && m.Hear? && s != m.s
    requires !Stale(sys.nodes[t.owner[m.packet.port]], sys.book[m.s][m.packet.n])
    requires Valid(t, Next(t, route, sys, m))
    ensures var v, sys' := t.owner[m.packet.port], Next(t, route, sys, m);
            var news := s == v && Emits(sys.nodes[v], Insert(sys.book[m.s][m.packet.n], m.neighbors)).Some?;
            && |sys'.book[s]| == |sys.book[s]| + (if news then 1 else 0)
            && sys'.flight[s] == (if news then sys.flight[s] + F.Copies(t, t.Ports(v) * m.open, |sys.book[s]|)
                                  else sys.flight[s])
            && forall u :: 0 <= u < t.nodes ==>
                 Number(t, sys', u, s) == if news && u == v then |sys.book[s]| else Number(t, sys, u, s)
  {
    var v := t.owner[m.packet.port];
    HeardIsRemote(t, sys, m.s, m.packet, m.neighbors);
    assert NodeOk(sys.book, v, sys.rows[v], sys.nodes[v]);
    assert sys.rows[v][v] == |sys.book[v]| - 1;
    hide React, NodeOk, FlightOk, Stores, Throws, Stale, F.Copies;
  }

  lemma RewireRefines(t: F.Topology, route: Router, sys: Sys, m: Move, s: nat)
    requires Valid(t, sys) && Allowed(t, sys, m) && s < t.nodes && m.Rewire?
    ensures Refined(t, route, sys, m, s)
  {
    NextKeepsValid(t, route, sys, m);
    ViewCore(t, sys, s);
    assert NodeOk(sys.book, m.v, sys.rows[m.v], sys.nodes[m.v]);
    assert sys.rows[m.v][m.v] == |sys.book[m.v]| - 1;
    hide React, NodeOk, FlightOk, Stores, Throws, F.Copies;
    var before, sys' := View(t, sys, s), Next(t, route, sys, m);
    if s == m.v && Emits(sys.nodes[m.v], NeighborChange(m.neighbors)).Some? {
      ViewIs(t, sys', s, F.Net(before.next + 1, before.last[s := before.next], sys'.flight[s]));
    } else {
      ViewIs(t, sys', s, before);
    }
  }

  lemma Refines(t: F.Topology, route: Router, sys: Sys, m: Move, s: nat)
    requires Valid(t, sys) && Allowed(t, sys, m) && s < t.nodes
    ensures Refined(t, route, sys, m, s)
  {
    match m {
      case Hear(x, pk, _, _) =>
        if Stale(sys.nodes[t.owner[pk.port]], sys.book[x][pk.n]) {
          StaleRefines(t, route, sys, m, s);
        } else if s == x {
          TakenRefines(t, route, sys, m);
        } else {
          AnnouncedRefines(t, route, sys, m, s);
        }
      case Miss(x, pk) =>
        NextKeepsValid(t, route, sys, m);
        ViewCore(t, sys, s);
        ViewIs(t, Next(t, route, sys, m), s, View(t, sys, s).(flight := Next(t, route, sys, m).flight[s]));
      case Rewire(_, _, _) => RewireRefines(t, route, sys, m, s);
    }
  }

  // ----- where every network starts -----

  function FirstBook(key: Key, s: Id, neighbors: set<Id>): seq<State> {
    [Seed(s, key), State(s, 0, key, neighbors)]
  }

  function FirstRow(nodes: nat, v: nat): Row {
    seq(nodes, s => if s == v then 1 else -1)
  }

  /** Nodes just started: each has announced itself once, before it had any channel. */
  function Booted(t: F.Topology, route: Router, keyOf: Id -> Key, neighborsOf: Id -> set<Id>): Sys
    requires forall v: Id :: |neighborsOf(v)| <= MAX_NEIGHBORS
  {
    Sys(seq(t.nodes, (v: nat) => Boot(route, v, keyOf(v), neighborsOf(v))),
        seq(t.nodes, (v: nat) => FirstRow(t.nodes, v)),
        seq(t.nodes, (s: nat) => FirstBook(keyOf(s), s, neighborsOf(s))),
        seq(t.nodes, (s: nat) => multiset{}))
  }

  lemma BootStored(route: Router, self: Id, key: Key, neighbors: set<Id>, id: Id)
    requires |neighbors| <= MAX_NEIGHBORS
    ensures var g := Boot(route, self, key, neighbors);
            StoredAt(g.vertices, id) == if id == self then Some(State(self, 0, key, neighbors)) else None
  {
    BootShape(route, self, key, neighbors);
    var known := Blank(self, key).(vertices := map[self := Vertex(Some(Seed(self, key)), {})]);
    AnnounceResult(route, known, neighbors);
  }

  lemma BootedNodeOk(t: F.Topology, route: Router, keyOf: Id -> Key, neighborsOf: Id -> set<Id>, v: nat)
    requires v < t.nodes && forall v: Id :: |neighborsOf(v)| <= MAX_NEIGHBORS
    ensures var sys := Booted(t, route, keyOf, neighborsOf); NodeOk(sys.book, v, sys.rows[v], sys.nodes[v])
  {
    var sys := Booted(t, route, keyOf, neighborsOf);
    BootShape(route, v, keyOf(v), neighborsOf(v));
    FirstNodeOk(sys.book, v, keyOf(v), neighborsOf(v), route);
    hide Boot, FirstBook;
    assert sys.rows[v] == FirstRow(t.nodes, v);
  }

  /** A node just started, in a book whose first entries are those of its own start. */
  lemma FirstNodeOk(book: Book, v: nat, key: Key, neighbors: set<Id>, route: Router)
    requires v < |book| && |neighbors| <= MAX_NEIGHBORS && book[v] == FirstBook(key, v, neighbors)
    ensures NodeOk(book, v, FirstRow(|book|, v), Boot(route, v, key, neighbors))
  {
    var g := Boot(route, v, key, neighbors);
    BootShape(route, v, key, neighbors);
    forall s | 0 <= s < |book| ensures Stores(book, s, FirstRow(|book|, v)[s], StoredAt(g.vertices, s)) {
      BootStored(route, v, key, neighbors, s);
    }
    forall id | id in g.vertices && |book| <= id ensures g.vertices[id].state == None {
      BootStored(route, v, key, neighbors, id);
    }
    hide Boot, Shape;
  }

  lemma BootedIsValid(t: F.Topology, route: Router, keyOf: Id -> Key, neighborsOf: Id -> set<Id>)
    requires t.Valid() && forall v: Id :: |neighborsOf(v)| <= MAX_NEIGHBORS
    ensures Valid(t, Booted(t, route, keyOf, neighborsOf))
  {
    var sys := Booted(t, route, keyOf, neighborsOf);
    assert |sys.nodes| == |sys.rows| == |sys.book| == |sys.flight| == t.nodes;
    assert forall s :: 0 <= s < t.nodes ==> sys.flight[s] == multiset{};
    hide NodeOk, BookOk, Booted;
    forall v | 0 <= v < t.nodes ensures NodeOk(sys.book, v, sys.rows[v], sys.nodes[v]) {
      BootedNodeOk(t, route, keyOf, neighborsOf, v);
    }
    BootedBookOk(t, route, keyOf, neighborsOf);
  }

  lemma FirstBookOk(key: Key, s: Id, neighbors: set<Id>, n: nat)
    requires n < |FirstBook(key, s, neighbors)|
    ensures FirstBook(key, s, neighbors)[n].id == s && FirstBook(key, s, neighbors)[n].key == key
    ensures FirstBook(key, s, neighbors)[n].sequence == Wrap(n - 1)
  {
    assert n == 0 || n == 1;
  }

  lemma BootedBookOk(t: F.Topology, route: Router, keyOf: Id -> Key, neighborsOf: Id -> set<Id>)
    requires forall v: Id :: |neighborsOf(v)| <= MAX_NEIGHBORS
    ensures BookOk(Booted(t, route, keyOf, neighborsOf).book)
  {
    var book: Book := Booted(t, route, keyOf, neighborsOf).book;
    forall s, n | 0 <= s < |book| && 0 <= n < |book[s]|
      ensures book[s][n].id == s && book[s][n].sequence == Wrap(n - 1) && book[s][n].key == book[s][0].key
    {
      FirstBookOk(keyOf(s), s, neighborsOf(s), n);
      FirstBookOk(keyOf(s), s, neighborsOf(s), 0);
    }
  }
}
