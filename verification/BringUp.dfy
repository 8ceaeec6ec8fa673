/** The stages of bring-up one after the other: what discovery ends with is what the routing
    computation needs, and what that ends with is what delivery and flood install. */
module BringUp {
  import opened Networks
  import opened DepthFirst
  import opened TopologyTables
  import D = Discovery
  import DR = DiscoveryRuns
  import DT = DiscoveryTheorems
  import opened Fabrics
  import opened RouteSpec
  import opened RoutingTables
  import I = Install
  import IT = InstallTheorems

  /** Discovery has ended on a network whose interfaces fit a mask and whose ids stay below AXIOM_NULL_NODE. */
  ghost predicate Discovered(cfg: Config, s: D.State, none: nat) {
    && cfg.Valid() && cfg.master < cfg.net.boards && D.Shape(cfg, s) && DT.Reachable(cfg, s) && D.AllDone(cfg, s)
    && 0 < cfg.net.ifaces <= 8 && cfg.masterId + cfg.net.boards <= none
  }

  function CellOf(t: Table, a: nat, i: nat, none: nat): nat {
    if Slot(a, i) in t then t[Slot(a, i)] else none
  }

  function RowOf(t: Table, a: nat, ifaces: nat, none: nat): (r: seq<nat>)
    ensures |r| == ifaces && forall i :: 0 <= i < ifaces ==> r[i] == CellOf(t, a, i, none)
  {
    seq(ifaces, i requires 0 <= i < ifaces => CellOf(t, a, i, none))
  }

  /** The master's topology matrix, and the range of ids, as the routing computation gets them. */
  function FabricOf(cfg: Config, t: Table, none: nat): Fabric {
    Fabric(seq(cfg.rows, a requires 0 <= a < cfg.rows => RowOf(t, a, cfg.net.ifaces, none)),
           cfg.net.ifaces, cfg.masterId, cfg.masterId + cfg.net.boards, none)
  }

  lemma TableCell(cfg: Config, s: D.State, none: nat, b: nat, i: nat)
    requires Discovered(cfg, s, none) && b < cfg.net.boards && i < cfg.net.ifaces
    ensures CellOf(s.nodes[cfg.master].topo, s.nodes[b].id, i, none) ==
            if Port(b, i) in cfg.net.wire then s.nodes[cfg.net.wire[Port(b, i)].board].id else none
  {
    hide DT.Reachable, D.AllDone, Net.Connected, DR.Expected;
    DT.TopologyExact(cfg, s);
    var t, k := s.nodes[cfg.master].topo, Slot(s.nodes[b].id, i);
    if k in t {
      assert DT.CableEnd(cfg, s, k);
      var p :| p in cfg.net.wire && k == Slot(s.nodes[p.board].id, p.iface);
      if p.board < b {
        DT.DoneDistinct(cfg, s, p.board, b);
      } else if b < p.board {
        DT.DoneDistinct(cfg, s, b, p.board);
      }
      assert p == Port(b, i);
    }
  }

  lemma FabricCell(cfg: Config, s: D.State, none: nat, b: nat, i: nat)
    requires Discovered(cfg, s, none) && b < cfg.net.boards && i < cfg.net.ifaces
    ensures var f := FabricOf(cfg, s.nodes[cfg.master].topo, none);
            && s.nodes[b].id < |f.cells|
            && f.cells[s.nodes[b].id][i] ==
               if Port(b, i) in cfg.net.wire then s.nodes[cfg.net.wire[Port(b, i)].board].id else none
  {
    hide DT.Reachable, D.AllDone, Net.Connected, CellOf;
    DT.IdsExact(cfg, s);
    TableCell(cfg, s, none, b, i);
    var t, a := s.nodes[cfg.master].topo, s.nodes[b].id;
    assert FabricOf(cfg, t, none).cells[a] == RowOf(t, a, cfg.net.ifaces, none);
  }

  lemma FabricAdj(cfg: Config, s: D.State, none: nat, b: nat, c: nat)
    requires Discovered(cfg, s, none) && b < cfg.net.boards && c < cfg.net.boards
    ensures FabricOf(cfg, s.nodes[cfg.master].topo, none).Adj(s.nodes[b].id, s.nodes[c].id) <==>
            exists i: nat :: Port(b, i) in cfg.net.wire && cfg.net.wire[Port(b, i)].board == c
  {
    hide DT.Reachable, D.AllDone;
    var f := FabricOf(cfg, s.nodes[cfg.master].topo, none);
    DT.IdsExact(cfg, s);
    var a, d := s.nodes[b].id, s.nodes[c].id;
    if f.Adj(a, d) {
      var i :| 0 <= i < |f.cells[a]| && f.cells[a][i] == d;
      FabricCell(cfg, s, none, b, i);
      assert Port(b, i) in cfg.net.wire && cfg.net.wire[Port(b, i)].board == c;
    }
    if i: nat :| Port(b, i) in cfg.net.wire && cfg.net.wire[Port(b, i)].board == c {
      FabricCell(cfg, s, none, b, i);
      assert f.cells[a][i] == d;
    }
  }

  lemma FabricFramed(cfg: Config, s: D.State, none: nat)
    requires Discovered(cfg, s, none)
    ensures FabricOf(cfg, s.nodes[cfg.master].topo, none).Framed()
  {
    hide DT.Reachable, D.AllDone;
    var f := FabricOf(cfg, s.nodes[cfg.master].topo, none);
    DT.IdsExact(cfg, s);
    forall a: nat, i | f.Node(a) && 0 <= i < f.ifaces
      ensures f.cells[a][i] == f.none || (f.Node(f.cells[a][i]) && f.cells[a][i] != a)
    {
      var b := DT.BoardOf(cfg, s, a);
      FabricCell(cfg, s, none, b, i);
    }
  }

  /** What discovery leaves at the master meets what the routing computation asks for. */
  lemma DiscoveredFabric(cfg: Config, s: D.State, none: nat)
    requires Discovered(cfg, s, none)
    ensures var f := FabricOf(cfg, s.nodes[cfg.master].topo, none);
            f.Valid() && f.Connected()
  {
    hide DT.Reachable, D.AllDone, Fabric.Adj;
    var f := FabricOf(cfg, s.nodes[cfg.master].topo, none);
    FabricFramed(cfg, s, none);
    forall a, d | f.Node(a) && f.Node(d) && f.Adj(a, d) ensures f.Adj(d, a) {
      var b := DT.BoardOf(cfg, s, a);
      var c := DT.BoardOf(cfg, s, d);
      FabricAdj(cfg, s, none, b, c);
      var i: nat :| Port(b, i) in cfg.net.wire && cfg.net.wire[Port(b, i)].board == c;
      assert cfg.net.wire[cfg.net.wire[Port(b, i)]] == Port(b, i);
      FabricAdj(cfg, s, none, c, b);
    }
    forall k: set<nat> | f.first in k && f.Closed(k) ensures f.Nodes() <= k {
      FabricReached(cfg, s, none, k);
    }
  }

  lemma FabricReached(cfg: Config, s: D.State, none: nat, k: set<nat>)
    requires Discovered(cfg, s, none)
    requires var f := FabricOf(cfg, s.nodes[cfg.master].topo, none); f.first in k && f.Closed(k)
    ensures FabricOf(cfg, s.nodes[cfg.master].topo, none).Nodes() <= k
  {
    hide DT.Reachable, D.AllDone, Fabric.Adj;
    var f := FabricOf(cfg, s.nodes[cfg.master].topo, none);
    DT.IdsExact(cfg, s);
    var boards := set b: nat | b < cfg.net.boards && s.nodes[b].id in k;
    forall p | p in cfg.net.wire && p.board in boards ensures cfg.net.wire[p].board in boards {
      var c := cfg.net.wire[p].board;
      assert p == Port(p.board, p.iface);
      FabricAdj(cfg, s, none, p.board, c);
      assert f.Node(s.nodes[p.board].id) && f.Node(s.nodes[c].id);
    }
    assert cfg.net.Closed(boards);
    forall a | a in f.Nodes() ensures a in k {
      var b := DT.BoardOf(cfg, s, a);
      assert b in boards;
    }
  }

  // ----- delivery and flood -----

  /** The plan of the last stages: the rows of the matrix `rt`, found by each board's id. */
  function PlanOf(cfg: Config, s: D.State, rt: seq<seq<bv8>>, loopback: bv8): I.Plan
    requires |s.nodes| == cfg.net.boards && forall b :: 0 <= b < |s.nodes| ==> s.nodes[b].id < |rt|
  {
    I.Plan(cfg.net, cfg.master, seq(cfg.net.boards, b requires 0 <= b < cfg.net.boards => s.nodes[b].id),
           seq(cfg.net.boards, b requires 0 <= b < cfg.net.boards => rt[s.nodes[b].id]),
           cfg.masterId + cfg.net.boards, cfg.rows, loopback)
  }

  /** rt is a matrix of searched rows, as ComputeRoutingTables leaves it. */
  ghost predicate Computed(cfg: Config, f: Fabric, rt: seq<seq<bv8>>) {
    && f.Framed() && |rt| == cfg.rows
    && forall a: nat :: f.Node(a) ==> a < |rt| && |rt[a]| == cfg.rows && Searched(f, a, rt[a])
  }

  lemma PlanValid(cfg: Config, s: D.State, none: nat, rt: seq<seq<bv8>>, loopback: bv8)
    requires Discovered(cfg, s, none) && Computed(cfg, FabricOf(cfg, s.nodes[cfg.master].topo, none), rt)
    ensures |s.nodes| == cfg.net.boards && forall b :: 0 <= b < |s.nodes| ==> s.nodes[b].id < |rt|
    ensures PlanOf(cfg, s, rt, loopback).Valid()
  {
    hide DT.Reachable, D.AllDone, Net.Connected, Net.Valid, Stops, Fabric.Ball, Toward;
    var f := FabricOf(cfg, s.nodes[cfg.master].topo, none);
    DT.IdsExact(cfg, s);
    forall b | 0 <= b < |s.nodes|
      ensures s.nodes[b].id < |rt|
      ensures |rt[s.nodes[b].id]| == cfg.rows && forall j :: f.last <= j < cfg.rows ==> rt[s.nodes[b].id][j] == 0
    {
      var a := s.nodes[b].id;
      assert f.Node(a) && Searched(f, a, rt[a]);
    }
  }

  /** When the flood has ended, every board's routing registers hold the row of its id, with the
      loopback entry for the board itself. */
  lemma Installed(cfg: Config, s: D.State, none: nat, rt: seq<seq<bv8>>, loopback: bv8, t: I.State, b: nat)
    requires Discovered(cfg, s, none) && Computed(cfg, FabricOf(cfg, s.nodes[cfg.master].topo, none), rt)
    requires (forall c :: 0 <= c < |s.nodes| ==> s.nodes[c].id < |rt|) && PlanOf(cfg, s, rt, loopback).Valid()
    requires var plan := PlanOf(cfg, s, rt, loopback);
             IT.Reachable(plan, t) && forall c :: 0 <= c < |t.boards| ==> t.boards[c].pc.Done?
    requires b < cfg.net.boards && b < |t.boards|
    ensures var f, a := FabricOf(cfg, s.nodes[cfg.master].topo, none), s.nodes[b].id;
            f.Node(a) && a < |rt[a]| && t.boards[b].regs == rt[a][a := loopback]
  {
    hide DT.Reachable, D.AllDone, IT.Reachable, Searched;
    DT.IdsExact(cfg, s);
    IT.AllInstalled(PlanOf(cfg, s, rt, loopback), t);
  }
}
