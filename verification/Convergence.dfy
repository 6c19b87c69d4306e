/** What whole runs of the link-state network come to. */
module Convergence {
  import opened Common
  import opened LinkState
  import opened Merge
  import opened StateNetwork
  import F = Flood

  ghost predicate Runs(t: F.Topology, routes: seq<Router>, sys: Sys, moves: seq<Move>, final: Sys)
    requires Valid(t, sys)
    decreases moves
  {
    if moves == [] then final == sys
    else
      && routes != [] && Allowed(t, sys, moves[0])
      && (NextKeepsValid(t, routes[0], sys, moves[0]);
          Runs(t, routes[1..], Next(t, routes[0], sys, moves[0]), moves[1..], final))
  }

  ghost predicate Reliable(t: F.Topology, m: Move) {
    !m.Miss? && forall p :: 0 <= p < |t.owner| ==> p in m.open
  }

  /** The run as the flood of one origin sees it. */
  ghost function Shadows(t: F.Topology, routes: seq<Router>, sys: Sys, moves: seq<Move>, final: Sys, s: nat)
    : seq<F.Event>
    requires Valid(t, sys) && Runs(t, routes, sys, moves, final) && s < t.nodes
    decreases moves
  {
    if moves == [] then []
    else
      NextKeepsValid(t, routes[0], sys, moves[0]);
      var rest := Shadows(t, routes[1..], Next(t, routes[0], sys, moves[0]), moves[1..], final, s);
      match Shadow(t, sys, moves[0], s)
      case None => rest
      case Some(e) => [e] + rest
  }

  lemma {:induction false} RunRefines(t: F.Topology, routes: seq<Router>, sys: Sys, moves: seq<Move>, final: Sys,
                                     s: nat)
    requires Valid(t, sys) && Runs(t, routes, sys, moves, final) && s < t.nodes
    ensures Valid(t, final) && F.Core(t, s, View(t, sys, s))
    ensures F.Reaches(t, s, true, View(t, sys, s), Shadows(t, routes, sys, moves, final, s), View(t, final, s))
    decreases moves
  {
    ViewCore(t, sys, s);
    if moves != [] {
      Refines(t, routes[0], sys, moves[0], s);
      var sys' := Next(t, routes[0], sys, moves[0]);
      RunRefines(t, routes[1..], sys', moves[1..], final, s);
      var rest := Shadows(t, routes[1..], sys', moves[1..], final, s);
      match Shadow(t, sys, moves[0], s) {
        case None =>
        case Some(e) => assert ([e] + rest)[1..] == rest;
      }
    }
  }

  lemma {:induction false} ShadowsReliable(t: F.Topology, routes: seq<Router>, sys: Sys, moves: seq<Move>, final: Sys,
                                          s: nat)
    requires Valid(t, sys) && Runs(t, routes, sys, moves, final) && s < t.nodes
    requires forall m :: m in moves ==> Reliable(t, m)
    ensures forall e :: e in Shadows(t, routes, sys, moves, final, s) ==> F.Reliable(t, e)
    decreases moves
  {
    if moves != [] {
      assert Reliable(t, moves[0]);
      NextKeepsValid(t, routes[0], sys, moves[0]);
      ShadowsReliable(t, routes[1..], Next(t, routes[0], sys, moves[0]), moves[1..], final, s);
    }
  }

  ghost predicate Ran(t: F.Topology, routes: seq<Router>, sys: Sys, moves: seq<Move>, final: Sys) {
    Valid(t, sys) && Runs(t, routes, sys, moves, final) && forall m :: m in moves ==> Reliable(t, m)
  }

  /** `s` announced itself during the run and no copy of its announcements is on its way. */
  ghost predicate Settled(sys: Sys, final: Sys, s: nat) {
    s < |sys.book| == |final.book| == |final.flight|
    && |sys.book[s]| < |final.book[s]| && final.flight[s] == multiset{}
  }

  /**
   Convergence.  Whatever the nodes stored and the channels carried when the channels
   became fixed and reliable: once `s` has announced itself again and nothing of it is in
   flight, every node connected to `s` stores the newest state `s` announced, as announced.
   */
  lemma StatesConverge(t: F.Topology, routes: seq<Router>, sys: Sys, moves: seq<Move>, final: Sys, s: nat, v: nat)
    requires Ran(t, routes, sys, moves, final) && Settled(sys, final, s)
    requires F.Connected(t, s, v)
    ensures v < t.nodes == |final.nodes|
    ensures StoredAt(final.nodes[v].vertices, s) == Some(final.book[s][|final.book[s]| - 1])
  {
    RunRefines(t, routes, sys, moves, final, s);
    ShadowsReliable(t, routes, sys, moves, final, s);
    if v != s {
      F.Coverage(t, s, true, View(t, sys, s), Shadows(t, routes, sys, moves, final, s), View(t, final, s), v);
    }
    NumberSaysStored(t, final, v, s);
  }

  lemma NumberSaysStored(t: F.Topology, sys: Sys, v: nat, s: nat)
    requires Valid(t, sys) && v < t.nodes && s < t.nodes
    ensures v == s ==> Number(t, sys, v, s) == |sys.book[s]| - 1
    ensures Stores(sys.book, s, Number(t, sys, v, s), StoredAt(sys.nodes[v].vertices, s))
  {
    assert NodeOk(sys.book, v, sys.rows[v], sys.nodes[v]);
  }

  /** All nodes announced themselves during the run, all is quiet, and all are connected. */
  ghost predicate AllSettled(t: F.Topology, sys: Sys, final: Sys) {
    && t.Valid()
    && (forall s :: 0 <= s < t.nodes ==> Settled(sys, final, s))
    && (forall u, v :: 0 <= u < t.nodes && 0 <= v < t.nodes ==> F.Connected(t, u, v))
  }

  /** Then any two nodes hold the same edges for every identifier, known or not. */
  lemma GraphsAgree(t: F.Topology, routes: seq<Router>, sys: Sys, moves: seq<Move>, final: Sys, u: nat, v: nat, id: Id)
    requires Ran(t, routes, sys, moves, final) && AllSettled(t, sys, final) && u < t.nodes && v < t.nodes
    ensures |final.nodes| == t.nodes
    ensures EdgesAt(final.nodes[u].vertices, id) == EdgesAt(final.nodes[v].vertices, id)
  {
    RunRefines(t, routes, sys, moves, final, u);
    if id < t.nodes {
      StatesConverge(t, routes, sys, moves, final, id, u);
      StatesConverge(t, routes, sys, moves, final, id, v);
    }
    EdgesFollowState(t, final, u, id);
    EdgesFollowState(t, final, v, id);
  }

  lemma EdgesFollowState(t: F.Topology, sys: Sys, v: nat, id: Id)
    requires Valid(t, sys) && v < t.nodes
    ensures var stored := StoredAt(sys.nodes[v].vertices, id);
            && (t.nodes <= id ==> stored == None)
            && EdgesAt(sys.nodes[v].vertices, id) == if stored.Some? then stored.value.neighbors else {}
  {
    assert NodeOk(sys.book, v, sys.rows[v], sys.nodes[v]);
  }

  /** Over any run, with losses, one announcement puts at most 2E - n + 1 copies on channels. */
  lemma AnnouncementSendBound(t: F.Topology, routes: seq<Router>, sys: Sys, moves: seq<Move>, final: Sys,
                              s: nat, n: nat, channels: nat)
    requires Valid(t, sys) && Runs(t, routes, sys, moves, final) && s < t.nodes && |sys.book[s]| <= n
    requires F.Channels(t, channels) && forall v :: 0 <= v < t.nodes ==> t.Ports(v) != {}
    ensures F.Core(t, s, View(t, sys, s)) && Valid(t, final)
    ensures F.Reaches(t, s, true, View(t, sys, s), Shadows(t, routes, sys, moves, final, s), View(t, final, s))
    ensures F.CountRun(t, s, true, View(t, sys, s), Shadows(t, routes, sys, moves, final, s), View(t, final, s),
                       n, F.Tally(0, 0, {})).cost <= 2 * channels - t.nodes + 1
  {
    RunRefines(t, routes, sys, moves, final, s);
    F.SendBound(t, s, true, View(t, sys, s), Shadows(t, routes, sys, moves, final, s), View(t, final, s), n, channels);
  }

  /** Over fixed reliable channels a single announcement of a connected network costs exactly that much. */
  lemma AnnouncementExactCost(t: F.Topology, routes: seq<Router>, sys: Sys, moves: seq<Move>, final: Sys,
                              s: nat, channels: nat)
    requires Ran(t, routes, sys, moves, final) && s < t.nodes == |sys.book| == |final.book| == |final.flight|
    requires |final.book[s]| == |sys.book[s]| + 1 && final.flight[s] == multiset{}
    requires F.Channels(t, channels) && forall v :: 0 <= v < t.nodes ==> F.Connected(t, s, v)
    ensures F.Core(t, s, View(t, sys, s)) && Valid(t, final)
    ensures F.Reaches(t, s, true, View(t, sys, s), Shadows(t, routes, sys, moves, final, s), View(t, final, s))
    ensures F.CountRun(t, s, true, View(t, sys, s), Shadows(t, routes, sys, moves, final, s), View(t, final, s),
                       |sys.book[s]|, F.Tally(0, 0, {})).cost == 2 * channels - t.nodes + 1
  {
    RunRefines(t, routes, sys, moves, final, s);
    ShadowsReliable(t, routes, sys, moves, final, s);
    F.ExactCost(t, s, true, View(t, sys, s), Shadows(t, routes, sys, moves, final, s), View(t, final, s), channels);
  }

  // ----- the network falls quiet -----

  function Total(a: seq<int>): int {
    if a == [] then 0 else a[0] + Total(a[1..])
  }

  lemma {:induction false} TotalUpdate(a: seq<int>, i: nat, y: int)
    requires i < |a|
    ensures Total(a[i := y]) == Total(a) - a[i] + y
  {
    if i > 0 {
      TotalUpdate(a[1..], i - 1, y);
      assert a[i := y][1..] == a[1..][i - 1 := y];
    } else {
      assert a[i := y][1..] == a[1..];
    }
  }

  lemma {:induction false} TotalNatural(a: seq<int>)
    requires forall i :: 0 <= i < |a| ==> a[i] >= 0
    ensures Total(a) >= 0
  {
    if a != [] {
      TotalNatural(a[1..]);
    }
  }

  /** Origins of which a node stores nothing. */
  function Gaps(row: Row): int {
    if row == [] then 0 else (if row[0] == -1 then 1 else 0) + Gaps(row[1..])
  }

  lemma {:induction false} GapFilled(row: Row, s: nat, n: int)
    requires s < |row| && n != -1
    ensures Gaps(row[s := n]) == Gaps(row) - if row[s] == -1 then 1 else 0
  {
    if s > 0 {
      GapFilled(row[1..], s - 1, n);
      assert row[s := n][1..] == row[1..][s - 1 := n];
    } else {
      assert row[s := n][1..] == row[1..];
    }
  }

  function GapCounts(rows: seq<Row>): seq<int> {
    seq(|rows|, v requires 0 <= v < |rows| => Gaps(rows[v]))
  }

  function Loads(flight: seq<multiset<F.Packet>>): seq<int> {
    seq(|flight|, s requires 0 <= s < |flight| => |flight[s]|)
  }

  /** How far the nodes are behind each origin. */
  ghost function Lags(t: F.Topology, sys: Sys): seq<int>
    requires Valid(t, sys)
  {
    seq(t.nodes, s requires 0 <= s < t.nodes => F.Behind(View(t, sys, s), t.nodes))
  }

  lemma {:induction false} LagsNatural(t: F.Topology, sys: Sys)
    requires Valid(t, sys)
    ensures Total(Lags(t, sys)) >= 0
  {
    forall s | 0 <= s < t.nodes ensures Lags(t, sys)[s] >= 0 {
      ViewCore(t, sys, s);
      F.BehindPositive(t, s, View(t, sys, s), t.nodes);
    }
    TotalNatural(Lags(t, sys));
  }

  /** States not yet known, then distance behind the origins, then copies in flight. */
  ghost predicate Lower(t: F.Topology, sys': Sys, sys: Sys)
    requires Valid(t, sys) && Valid(t, sys')
  {
    var gaps, gaps' := Total(GapCounts(sys.rows)), Total(GapCounts(sys'.rows));
    var lag, lag' := Total(Lags(t, sys)), Total(Lags(t, sys'));
    || gaps' < gaps
    || (gaps' == gaps && lag' < lag)
    || (gaps' == gaps && lag' == lag && Total(Loads(sys'.flight)) < Total(Loads(sys.flight)))
  }

  lemma LagsDrop(t: F.Topology, sys: Sys, sys': Sys, s: nat)
    requires Valid(t, sys) && Valid(t, sys') && s < t.nodes
    requires forall x :: 0 <= x < t.nodes && x != s ==> View(t, sys', x) == View(t, sys, x)
    ensures Total(Lags(t, sys')) == Total(Lags(t, sys))
              - F.Behind(View(t, sys, s), t.nodes) + F.Behind(View(t, sys', s), t.nodes)
  {
    assert Lags(t, sys') == Lags(t, sys)[s := F.Behind(View(t, sys', s), t.nodes)];
    TotalUpdate(Lags(t, sys), s, F.Behind(View(t, sys', s), t.nodes));
  }

  lemma LoadsDrop(t: F.Topology, sys: Sys, sys': Sys, s: nat)
    requires Valid(t, sys) && Valid(t, sys') && s < t.nodes
    requires forall x :: 0 <= x < t.nodes && x != s ==> View(t, sys', x) == View(t, sys, x)
    ensures Total(Loads(sys'.flight)) == Total(Loads(sys.flight)) - |sys.flight[s]| + |sys'.flight[s]|
  {
    forall x | 0 <= x < t.nodes && x != s ensures sys'.flight[x] == sys.flight[x] {
      assert View(t, sys', x) == View(t, sys, x);
    }
    assert Loads(sys'.flight) == Loads(sys.flight)[s := |sys'.flight[s]|];
    TotalUpdate(Loads(sys.flight), s, |sys'.flight[s]|);
  }

  /** A step that is a delivery or a loss in one flood, and nothing in the others. */
  lemma OneFloodLowers(t: F.Topology, route: Router, sys: Sys, m: Move, s: nat)
    requires Valid(t, sys) && Allowed(t, sys, m) && s < t.nodes
    requires Shadow(t, sys, m, s).Some? && !Shadow(t, sys, m, s).value.Originate?
    requires forall x :: 0 <= x < t.nodes && x != s ==> Shadow(t, sys, m, x).None?
    requires Valid(t, Next(t, route, sys, m))
    requires Total(GapCounts(Next(t, route, sys, m).rows)) == Total(GapCounts(sys.rows))
    ensures Lower(t, Next(t, route, sys, m), sys)
  {
    var sys' := Next(t, route, sys, m);
    forall x | 0 <= x < t.nodes && x != s ensures View(t, sys', x) == View(t, sys, x) {
      Refines(t, route, sys, m, x);
    }
    LagsDrop(t, sys, sys', s);
    LoadsDrop(t, sys, sys', s);
    Refines(t, route, sys, m, s);
    F.ConsumingLowersMeasure(t, s, true, View(t, sys, s), Shadow(t, sys, m, s).value);
  }

  lemma GapCountsUpdate(rows: seq<Row>, v: nat, row': Row)
    requires v < |rows|
    ensures Total(GapCounts(rows[v := row'])) == Total(GapCounts(rows)) - Gaps(rows[v]) + Gaps(row')
  {
    assert GapCounts(rows[v := row']) == GapCounts(rows)[v := Gaps(row')];
    TotalUpdate(GapCounts(rows), v, Gaps(row'));
  }

  /** Hearing news of a node fills the gap it had there, if it had one, and opens none. */
  lemma HearingFillsGaps(t: F.Topology, route: Router, sys: Sys, m: Move)
    requires Valid(t, sys) && Allowed(t, sys, m) && m.Hear?
    requires !Stale(sys.nodes[t.owner[m.packet.port]], sys.book[m.s][m.packet.n])
    ensures var v := t.owner[m.packet.port];
            && (Emits(sys.nodes[v], Insert(sys.book[m.s][m.packet.n], m.neighbors)).Some? <==> sys.rows[v][m.s] == -1)
            && Total(GapCounts(Next(t, route, sys, m).rows))
               == Total(GapCounts(sys.rows)) - if sys.rows[v][m.s] == -1 then 1 else 0
  {
    var s, pk, v := m.s, m.packet, t.owner[m.packet.port];
    var row := sys.rows[v];
    assert NodeOk(sys.book, v, row, sys.nodes[v]);
    HeardIsRemote(t, sys, s, pk, m.neighbors);
    Decides(sys.book, v, row, sys.nodes[v], s, pk.n);
    var announced := Emits(sys.nodes[v], Insert(sys.book[s][pk.n], m.neighbors));
    GapFilled(row, s, pk.n);
    GapFilled(row[s := pk.n], v, row[v] + 1);
    GapCountsUpdate(sys.rows, v, RowAfter(row, v, s, pk.n, announced));
  }

  /**
   The network falls quiet: every copy heard or lost lowers a well-founded measure, because
   a node answers news with an announcement of its own only when the news fills a gap.
   */
  lemma HearingLowersMeasure(t: F.Topology, route: Router, sys: Sys, m: Move)
    requires Valid(t, sys) && Allowed(t, sys, m) && !m.Rewire?
    ensures Valid(t, Next(t, route, sys, m)) && Lower(t, Next(t, route, sys, m), sys)
  {
    NextKeepsValid(t, route, sys, m);
    if m.Miss? {
      OneFloodLowers(t, route, sys, m, m.s);
    } else {
      var v := t.owner[m.packet.port];
      assert NodeOk(sys.book, v, sys.rows[v], sys.nodes[v]);
      if Stale(sys.nodes[v], sys.book[m.s][m.packet.n]) {
        OneFloodLowers(t, route, sys, m, m.s);
      } else {
        HearingFillsGaps(t, route, sys, m);
        if sys.rows[v][m.s] != -1 {
          OneFloodLowers(t, route, sys, m, m.s);
        }
      }
    }
  }

  /** The three parts of the measure are natural numbers. */
  lemma MeasureNatural(t: F.Topology, sys: Sys)
    requires Valid(t, sys)
    ensures Total(GapCounts(sys.rows)) >= 0 && Total(Lags(t, sys)) >= 0 && Total(Loads(sys.flight)) >= 0
  {
    forall v | 0 <= v < |sys.rows| ensures GapCounts(sys.rows)[v] >= 0 {
      GapsNatural(sys.rows[v]);
    }
    TotalNatural(GapCounts(sys.rows));
    LagsNatural(t, sys);
    TotalNatural(Loads(sys.flight));
  }

  lemma {:induction false} GapsNatural(row: Row)
    ensures Gaps(row) >= 0
  {
    if row != [] {
      GapsNatural(row[1..]);
    }
  }
}
