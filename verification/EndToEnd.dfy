/** What bring-up is for: packets that the boards forward by their registers, over the real cables. */
module EndToEnd {
  import opened Networks
  import opened DepthFirst
  import opened TopologyTables
  import D = Discovery
  import DT = DiscoveryTheorems
  import opened Fabrics
  import opened InterfaceMasks
  import opened RouteSpec
  import opened RoutingTables
  import opened RouteTheorems
  import I = Install
  import IT = InstallTheorems
  import opened BringUp

  // ----- distances in the network -----

  /** Board y is at most k cables away from board x. */
  ghost predicate Near(net: Net, x: nat, y: nat, k: nat)
    decreases k
  {
    if k == 0 then x == y
    else Near(net, x, y, k - 1) || exists p :: p in net.wire && net.wire[p].board == y && Near(net, x, p.board, k - 1)
  }

  ghost predicate Distance(net: Net, x: nat, y: nat, k: nat) {
    Near(net, x, y, k) && (k > 0 ==> !Near(net, x, y, k - 1))
  }

  function Map(cfg: Config, s: D.State, none: nat): Fabric
    requires cfg.master < |s.nodes|
  {
    FabricOf(cfg, s.nodes[cfg.master].topo, none)
  }

  lemma {:induction false} NearInBall(cfg: Config, s: D.State, none: nat, x: nat, y: nat, k: nat)
    requires Discovered(cfg, s, none) && x < cfg.net.boards && y < cfg.net.boards && Near(cfg.net, x, y, k)
    ensures s.nodes[y].id in Map(cfg, s, none).Ball(s.nodes[x].id, k)
    decreases k
  {
    hide DT.Reachable, D.AllDone, Net.Connected, Fabric.Ball, Map;
    var f, a := Map(cfg, s, none), s.nodes[x].id;
    if k == 0 {
      IsNode(cfg, s, none, x);
      BallNodes(f, a, 0);
    } else if Near(cfg.net, x, y, k - 1) {
      NearInBall(cfg, s, none, x, y, k - 1);
      BallGrows(f, a, k - 1, k);
    } else {
      var p :| p in cfg.net.wire && cfg.net.wire[p].board == y && Near(cfg.net, x, p.board, k - 1);
      NearInBall(cfg, s, none, x, p.board, k - 1);
      OneCable(cfg, s, none, p);
      BallStep(f, a, k - 1, s.nodes[p.board].id, s.nodes[y].id);
    }
  }

  lemma {:induction false} BallNear(cfg: Config, s: D.State, none: nat, x: nat, y: nat, k: nat)
    requires Discovered(cfg, s, none) && x < cfg.net.boards && y < cfg.net.boards
    requires s.nodes[y].id in Map(cfg, s, none).Ball(s.nodes[x].id, k)
    ensures Near(cfg.net, x, y, k)
    decreases k
  {
    hide DT.Reachable, D.AllDone, Net.Connected, Map, Fabric.Around;
    var f, a := Map(cfg, s, none), s.nodes[x].id;
    if k == 0 {
      SameId(cfg, s, none, x, y);
    } else if s.nodes[y].id in f.Ball(a, k - 1) {
      BallNear(cfg, s, none, x, y, k - 1);
    } else {
      var p := LastCable(cfg, s, none, x, y, k);
      BallNear(cfg, s, none, x, p.board, k - 1);
    }
  }

  /** The distances in the master's topology are those of the network. */
  lemma BallIsNear(cfg: Config, s: D.State, none: nat, x: nat, y: nat, k: nat)
    requires Discovered(cfg, s, none) && x < cfg.net.boards && y < cfg.net.boards
    ensures s.nodes[y].id in Map(cfg, s, none).Ball(s.nodes[x].id, k) <==> Near(cfg.net, x, y, k)
  {
    hide Near, Fabric.Ball, Map, DT.Reachable, D.AllDone, Net.Connected;
    if Near(cfg.net, x, y, k) {
      NearInBall(cfg, s, none, x, y, k);
    } else if s.nodes[y].id in Map(cfg, s, none).Ball(s.nodes[x].id, k) {
      BallNear(cfg, s, none, x, y, k);
    }
  }

  lemma SameId(cfg: Config, s: D.State, none: nat, x: nat, y: nat)
    requires Discovered(cfg, s, none) && x < cfg.net.boards && y < cfg.net.boards
    ensures s.nodes[x].id == s.nodes[y].id <==> x == y
  {
    hide DT.Reachable, D.AllDone, Net.Connected;
    if x < y {
      DT.DoneDistinct(cfg, s, x, y);
    } else if y < x {
      DT.DoneDistinct(cfg, s, y, x);
    }
  }

  lemma IsNode(cfg: Config, s: D.State, none: nat, x: nat)
    requires Discovered(cfg, s, none) && x < cfg.net.boards
    ensures Map(cfg, s, none).Node(s.nodes[x].id)
  {
    hide DT.Reachable, D.AllDone, Net.Connected;
    DT.DoneId(cfg, s, x);
  }

  lemma OneCable(cfg: Config, s: D.State, none: nat, p: Port)
    requires Discovered(cfg, s, none) && p in cfg.net.wire
    ensures var f, a, b := Map(cfg, s, none), s.nodes[p.board].id, s.nodes[cfg.net.wire[p].board].id;
            f.Node(a) && f.Node(b) && f.Adj(a, b)
  {
    hide DT.Reachable, D.AllDone, Net.Connected;
    assert Port(p.board, p.iface) == p;
    FabricAdj(cfg, s, none, p.board, cfg.net.wire[p].board);
    IsNode(cfg, s, none, p.board);
    IsNode(cfg, s, none, cfg.net.wire[p].board);
  }

  /** The last cable to a node that enters the ball with its k-th step. */
  lemma LastCable(cfg: Config, s: D.State, none: nat, x: nat, y: nat, k: nat) returns (p: Port)
    requires Discovered(cfg, s, none) && x < cfg.net.boards && y < cfg.net.boards && k > 0
    requires var f := Map(cfg, s, none);
             s.nodes[y].id in f.Ball(s.nodes[x].id, k) && s.nodes[y].id !in f.Ball(s.nodes[x].id, k - 1)
    ensures p in cfg.net.wire && cfg.net.wire[p].board == y
    ensures s.nodes[p.board].id in Map(cfg, s, none).Ball(s.nodes[x].id, k - 1)
  {
    hide DT.Reachable, D.AllDone, Net.Connected, Fabric.Adj;
    var f := Map(cfg, s, none);
    var a :| a in f.Ball(s.nodes[x].id, k - 1) && f.Node(a) && f.Adj(a, s.nodes[y].id);
    var b := DT.BoardOf(cfg, s, a);
    FabricAdj(cfg, s, none, b, y);
    var i: nat :| Port(b, i) in cfg.net.wire && cfg.net.wire[Port(b, i)].board == y;
    p := Port(b, i);
  }

  // ----- forwarding by the registers -----

  /** Bring-up has ended with registers t. */
  ghost predicate Up(cfg: Config, s: D.State, none: nat, rt: seq<seq<bv8>>, loopback: bv8, t: I.State) {
    && Discovered(cfg, s, none) && Computed(cfg, Map(cfg, s, none), rt)
    && (forall b :: 0 <= b < |s.nodes| ==> s.nodes[b].id < |rt|) && PlanOf(cfg, s, rt, loopback).Valid()
    && IT.Reachable(PlanOf(cfg, s, rt, loopback), t)
    && |t.boards| == cfg.net.boards && forall c :: 0 <= c < |t.boards| ==> t.boards[c].pc.Done?
  }

  /** The master computes the tables of the topology it has discovered. */
  method ComputeTables(cfg: Config, f: Fabric) returns (rt: seq<seq<bv8>>)
    requires f.Valid() && f.Connected() && f.last <= cfg.rows && f.last - f.first + f.ifaces <= 256
    ensures Computed(cfg, f, rt)
  {
    hide Fabric.Connected, Searched;
    var n := cfg.rows;
    var tables := new bv8[n, n];
    ComputeRoutingTables(f, tables);
    rt := seq(n, a requires 0 <= a < n reads tables => seq(n, j requires 0 <= j < n reads tables => tables[a, j]));
    forall a: nat | f.Node(a) ensures a < |rt| && |rt[a]| == n && Searched(f, a, rt[a]) {
      assert rt[a] == Row(tables, a);
    }
  }

  /** The master's part after discovery, on every network whose nodes and interfaces a byte can count:
      it computes the tables, delivers them and starts the flood; and the flood ends. `topology` is
      what discovery left. */
  method BringUpAll(cfg: Config, ghost s: D.State, topology: Table, none: nat, loopback: bv8)
    returns (rt: seq<seq<bv8>>, ghost t: I.State)
    requires Discovered(cfg, s, none) && topology == s.nodes[cfg.master].topo && cfg.net.boards + cfg.net.ifaces <= 256
    ensures Computed(cfg, FabricOf(cfg, topology, none), rt)
    ensures Up(cfg, s, none, rt, loopback, t)
  {
    hide DT.Reachable, D.AllDone, Fabric.Connected, Fabric.Valid, Computed, IT.Reachable, I.AllDone;
    var f := FabricOf(cfg, topology, none);
    DiscoveredFabric(cfg, s, none);
    rt := ComputeTables(cfg, f);
    PlanValid(cfg, s, none, rt, loopback);
    hide I.Plan.Valid;
    t := IT.SomeEnd(PlanOf(cfg, s, rt, loopback));
    assert forall c :: 0 <= c < |t.boards| ==> t.boards[c].pc.Done? by {
      AllBoardsDone(PlanOf(cfg, s, rt, loopback), t);
    }
  }

  lemma AllBoardsDone(plan: I.Plan, t: I.State)
    requires I.Shape(plan, t) && I.AllDone(plan, t)
    ensures forall c :: 0 <= c < |t.boards| ==> t.boards[c].pc.Done?
  {
  }

  /** The registers of board u may send a packet for id d out of interface i. */
  predicate Picks(t: I.State, d: nat, u: nat, i: nat) {
    u < |t.boards| && d < |t.boards[u].regs| && Has(t.boards[u].regs[d], i)
  }

  /** A packet for id d goes from board u over a cable to board w. */
  ghost predicate Forwards(net: Net, t: I.State, d: nat, u: nat, w: nat) {
    exists i: nat :: Picks(t, d, u, i) && Port(u, i) in net.wire && net.wire[Port(u, i)].board == w
  }

  /** A path of a packet for board y, as the registers send it until it is there. */
  ghost predicate Trip(net: Net, s: D.State, t: I.State, y: nat, path: seq<nat>)
    requires y < |s.nodes|
  {
    |path| > 0 && forall j :: 0 <= j < |path| - 1 ==>
      path[j] != y && Forwards(net, t, s.nodes[y].id, path[j], path[j + 1])
  }

  lemma RegisterIsRoute(cfg: Config, s: D.State, none: nat, rt: seq<seq<bv8>>, loopback: bv8, t: I.State, u: nat,
                        y: nat, i: nat)
    requires Up(cfg, s, none, rt, loopback, t) && u < cfg.net.boards && y < cfg.net.boards && u != y
    ensures s.nodes[u].id < |rt| && s.nodes[y].id < |rt[s.nodes[u].id]|
    ensures Picks(t, s.nodes[y].id, u, i) <==> Has(rt[s.nodes[u].id][s.nodes[y].id], i)
  {
    hide DT.Reachable, D.AllDone, IT.Reachable, Net.Connected, Searched, Has, I.Plan.Valid;
    Installed(cfg, s, none, rt, loopback, t, u);
    SameId(cfg, s, none, u, y);
    IsNode(cfg, s, none, u);
    IsNode(cfg, s, none, y);
  }

  /** The routing tables of the topology are complete for node a: the exact condition on the topology. */
  ghost predicate Ample(f: Fabric, a: nat)
    requires f.Framed() && f.Node(a)
  {
    exists e: nat :: Radius(f, a, e) && (e <= 2 || |Rim(f, a, e)| > Surplus(f, a))
  }

  ghost predicate AllAmple(f: Fabric)
    requires f.Framed()
  {
    forall a: nat {:trigger Ample(f, a)} :: f.Node(a) ==> Ample(f, a)
  }

  lemma AmpleIff(f: Fabric, a: nat, row: seq<bv8>)
    requires f.Valid() && f.Connected() && f.Node(a) && Searched(f, a, row)
    ensures Ample(f, a) <==> RowIs(f, a, row, f.Nodes())
  {
    hide Fabric.Connected, Fabric.Ball, RowIs, Searched, Toward, Surplus, Rim;
    var e := RadiusExists(f, a, 0);
    RowComplete(f, a, row, e);
    if g: nat :| Radius(f, a, g) && (g <= 2 || |Rim(f, a, g)| > Surplus(f, a)) {
      assert g == e;
    }
  }

  lemma AllComplete(cfg: Config, s: D.State, none: nat, rt: seq<seq<bv8>>)
    requires Discovered(cfg, s, none) && Computed(cfg, Map(cfg, s, none), rt) && AllAmple(Map(cfg, s, none))
    ensures Complete(Map(cfg, s, none), rt)
  {
    hide DT.Reachable, D.AllDone, Net.Connected, Searched, Ample, RowIs, Fabric.Connected, Fabric.Valid;
    var f := Map(cfg, s, none);
    DiscoveredFabric(cfg, s, none);
    forall a: nat | f.Node(a) ensures RowIs(f, a, rt[a], f.Nodes()) {
      assert Ample(f, a);
      AmpleIff(f, a, rt[a]);
    }
  }

  lemma StepIsRoute(cfg: Config, s: D.State, none: nat, rt: seq<seq<bv8>>, loopback: bv8, t: I.State, u: nat, w: nat,
                    y: nat)
    requires Up(cfg, s, none, rt, loopback, t) && Complete(Map(cfg, s, none), rt)
    requires u < cfg.net.boards && y < cfg.net.boards && u != y && Forwards(cfg.net, t, s.nodes[y].id, u, w)
    ensures w < cfg.net.boards && MayForward(Map(cfg, s, none), rt, s.nodes[y].id, s.nodes[u].id, s.nodes[w].id)
  {
    hide DT.Reachable, D.AllDone, IT.Reachable, Net.Connected, Computed, Has, I.Plan.Valid, Complete;
    var f, d := Map(cfg, s, none), s.nodes[y].id;
    var i: nat :| Picks(t, d, u, i) && Port(u, i) in cfg.net.wire && cfg.net.wire[Port(u, i)].board == w;
    RegisterIsRoute(cfg, s, none, rt, loopback, t, u, y, i);
    FabricCell(cfg, s, none, u, i);
    SameId(cfg, s, none, u, y);
    IsNode(cfg, s, none, u);
    IsNode(cfg, s, none, y);
  }

  lemma {:induction false} TripIsTravel(cfg: Config, s: D.State, none: nat, rt: seq<seq<bv8>>, loopback: bv8,
                                        t: I.State, y: nat, path: seq<nat>, n: nat) returns (ids: seq<nat>)
    requires Up(cfg, s, none, rt, loopback, t) && Complete(Map(cfg, s, none), rt) && y < cfg.net.boards
    requires Trip(cfg.net, s, t, y, path) && path[0] < cfg.net.boards && n < |path|
    ensures |ids| == n + 1 && ids[0] == s.nodes[path[0]].id && path[n] < cfg.net.boards && ids[n] == s.nodes[path[n]].id
    ensures Travels(Map(cfg, s, none), rt, s.nodes[y].id, ids)
  {
    hide Up, Complete, MayForward, Forwards;
    UpIsDone(cfg, s, none, rt, loopback, t);
    var f, d := Map(cfg, s, none), s.nodes[y].id;
    IsNode(cfg, s, none, y);
    if n == 0 {
      ids := [s.nodes[path[0]].id];
      IsNode(cfg, s, none, path[0]);
    } else {
      var front := TripIsTravel(cfg, s, none, rt, loopback, t, y, path, n - 1);
      assert path[n - 1] != y && Forwards(cfg.net, t, d, path[n - 1], path[n - 1 + 1]);
      StepIsRoute(cfg, s, none, rt, loopback, t, path[n - 1], path[n], y);
      ids := front + [s.nodes[path[n]].id];
      forall j | 0 <= j < n ensures MayForward(f, rt, d, ids[j], ids[j + 1]) {
        assert j < n - 1 ==> MayForward(f, rt, d, front[j], front[j + 1]);
      }
    }
  }

  lemma UpIsDone(cfg: Config, s: D.State, none: nat, rt: seq<seq<bv8>>, loopback: bv8, t: I.State)
    requires Up(cfg, s, none, rt, loopback, t)
    ensures Discovered(cfg, s, none) && Computed(cfg, Map(cfg, s, none), rt)
    ensures cfg.Valid() && cfg.master < cfg.net.boards == |s.nodes|
  {
  }

  /** When the topology is ample for every node, every packet from x to y that the boards forward by
      their registers, whichever interface of a mask they pick, is at y after exactly as many cables
      as lie between the two, and not before. */
  lemma ArrivesExactly(cfg: Config, s: D.State, none: nat, rt: seq<seq<bv8>>, loopback: bv8, t: I.State,
                       x: nat, y: nat, path: seq<nat>, k: nat)
    requires Up(cfg, s, none, rt, loopback, t) && Map(cfg, s, none).Framed() && AllAmple(Map(cfg, s, none))
    requires x < cfg.net.boards && y < cfg.net.boards && Distance(cfg.net, x, y, k)
    requires Trip(cfg.net, s, t, y, path) && path[0] == x
    ensures |path| - 1 <= k && (path[|path| - 1] == y <==> |path| - 1 == k)
  {
    UpIsDone(cfg, s, none, rt, loopback, t);
    hide Up, AllAmple, Complete, Travels, Distance, Map, Discovered, Computed, Forwards, Fabric.Framed, Fabric.At;
    var n: nat := |path| - 1;
    AllComplete(cfg, s, none, rt);
    var ids := TripIsTravel(cfg, s, none, rt, loopback, t, y, path, n);
    AtDistance(cfg, s, none, x, y, k);
    ShortestPath(Map(cfg, s, none), rt, s.nodes[y].id, ids, k);
    SameId(cfg, s, none, path[n], y);
  }

  lemma AtDistance(cfg: Config, s: D.State, none: nat, x: nat, y: nat, k: nat)
    requires Discovered(cfg, s, none) && x < cfg.net.boards && y < cfg.net.boards && Distance(cfg.net, x, y, k)
    ensures Map(cfg, s, none).At(s.nodes[x].id, s.nodes[y].id, k)
  {
    hide Near, Fabric.Ball, Map, DT.Reachable, D.AllDone, Net.Connected;
    BallIsNear(cfg, s, none, x, y, k);
    if k > 0 {
      BallIsNear(cfg, s, none, x, y, k - 1);
    }
  }

  /** Every board but the addressee can send a packet on, and only over cables. */
  ghost predicate SendsOn(cfg: Config, s: D.State, t: I.State, u: nat, y: nat)
    requires y < |s.nodes|
  {
    && (exists i: nat :: Picks(t, s.nodes[y].id, u, i))
    && (forall i: nat :: Picks(t, s.nodes[y].id, u, i) ==> Port(u, i) in cfg.net.wire)
  }

  /** Every packet can always be sent on exactly when the topology is ample for every node. */
  lemma SendsOnIff(cfg: Config, s: D.State, none: nat, rt: seq<seq<bv8>>, loopback: bv8, t: I.State)
    requires Up(cfg, s, none, rt, loopback, t) && Map(cfg, s, none).Framed()
    ensures |s.nodes| == cfg.net.boards
    ensures (forall u: nat, y: nat :: u < cfg.net.boards && y < cfg.net.boards && u != y ==> SendsOn(cfg, s, t, u, y))
            <==> AllAmple(Map(cfg, s, none))
  {
    var f := Map(cfg, s, none);
    UpIsDone(cfg, s, none, rt, loopback, t);
    hide Up, Ample, SendsOn, Complete, Computed;
    if AllAmple(f) {
      AllComplete(cfg, s, none, rt);
      forall u: nat, y: nat | u < cfg.net.boards && y < cfg.net.boards && u != y ensures SendsOn(cfg, s, t, u, y) {
        CanSend(cfg, s, none, rt, loopback, t, u, y);
      }
    }
    if forall u: nat, y: nat :: u < cfg.net.boards && y < cfg.net.boards && u != y ==> SendsOn(cfg, s, t, u, y) {
      forall a: nat | f.Node(a) ensures Ample(f, a) {
        MustBeAmple(cfg, s, none, rt, loopback, t, a);
      }
    }
  }

  lemma CanSend(cfg: Config, s: D.State, none: nat, rt: seq<seq<bv8>>, loopback: bv8, t: I.State, u: nat, y: nat)
    requires Up(cfg, s, none, rt, loopback, t) && cfg.master < |s.nodes| && Complete(Map(cfg, s, none), rt)
    requires u < cfg.net.boards && y < cfg.net.boards && u != y
    ensures y < |s.nodes| && SendsOn(cfg, s, t, u, y)
  {
    hide Up, Complete, Picks;
    UpIsDone(cfg, s, none, rt, loopback, t);
    var i := SomePick(cfg, s, none, rt, loopback, t, u, y);
    forall i: nat | Picks(t, s.nodes[y].id, u, i) ensures Port(u, i) in cfg.net.wire {
      PickIsCable(cfg, s, none, rt, loopback, t, u, y, i);
    }
  }

  lemma SomePick(cfg: Config, s: D.State, none: nat, rt: seq<seq<bv8>>, loopback: bv8, t: I.State, u: nat, y: nat)
    returns (i: nat)
    requires Up(cfg, s, none, rt, loopback, t) && cfg.master < |s.nodes| && Complete(Map(cfg, s, none), rt)
    requires u < cfg.net.boards && y < cfg.net.boards && u != y
    ensures y < |s.nodes| && Picks(t, s.nodes[y].id, u, i)
  {
    hide Up, Complete, Picks, Discovered, Has, Map, Computed;
    UpIsDone(cfg, s, none, rt, loopback, t);
    var n := RouteHop(cfg, s, none, rt, u, y);
    i := SomeBit(rt[s.nodes[u].id][s.nodes[y].id]);
    RegisterIsRoute(cfg, s, none, rt, loopback, t, u, y, i);
  }

  lemma PickIsCable(cfg: Config, s: D.State, none: nat, rt: seq<seq<bv8>>, loopback: bv8, t: I.State, u: nat, y: nat,
                    i: nat)
    requires Up(cfg, s, none, rt, loopback, t) && cfg.master < |s.nodes| && Complete(Map(cfg, s, none), rt)
    requires u < cfg.net.boards && y < cfg.net.boards && u != y && y < |s.nodes| && Picks(t, s.nodes[y].id, u, i)
    ensures Port(u, i) in cfg.net.wire
  {
    hide Up, Complete, Picks, Discovered, Has, Map, Computed;
    UpIsDone(cfg, s, none, rt, loopback, t);
    var n := RouteHop(cfg, s, none, rt, u, y);
    RegisterIsRoute(cfg, s, none, rt, loopback, t, u, y, i);
    Connected(cfg, s, none, u, i);
  }

  lemma SomeBit(m: bv8) returns (i: nat)
    requires m != 0
    ensures Has(m, i)
  {
    hide Has;
    HasNone(m);
    i :| 0 <= i < 8 && Has(m, i);
  }

  lemma Connected(cfg: Config, s: D.State, none: nat, u: nat, i: nat)
    requires Discovered(cfg, s, none) && u < cfg.net.boards && i < cfg.net.ifaces
    requires var f, a := Map(cfg, s, none), s.nodes[u].id; a < |f.cells| && i < |f.cells[a]| && f.cells[a][i] != none
    ensures Port(u, i) in cfg.net.wire
  {
    hide DT.Reachable, D.AllDone, Net.Connected;
    FabricCell(cfg, s, none, u, i);
  }

  lemma OneHop(f: Fabric, rows: seq<seq<bv8>>, a: nat, d: nat) returns (n: nat)
    requires Complete(f, rows) && f.Node(a) && f.Node(d) && a != d
    ensures d < |rows[a]| && rows[a][d] != 0 && n != f.none
    ensures forall i: nat :: Has(rows[a][d], i) ==> i < f.ifaces && f.cells[a][i] == n
  {
    hide Has, Fabric.Ball, Fabric.At;
    assert RowIs(f, a, rows[a], f.Nodes()) && d in f.Nodes();
    var m: nat, k: nat :| Hop(f, a, m, rows[a][d]) && f.At(a, d, k + 1) && f.At(m, d, k);
    n := m;
  }

  /** The route from u to y: all its interfaces lead to one neighbour. */
  lemma RouteHop(cfg: Config, s: D.State, none: nat, rt: seq<seq<bv8>>, u: nat, y: nat) returns (n: nat)
    requires Discovered(cfg, s, none) && Complete(Map(cfg, s, none), rt) && u < cfg.net.boards && y < cfg.net.boards
             && u != y
    ensures var f, a, d := Map(cfg, s, none), s.nodes[u].id, s.nodes[y].id;
            && a < |rt| && d < |rt[a]| && rt[a][d] != 0 && n != none && a < |f.cells|
            && forall i: nat :: Has(rt[a][d], i) ==> i < cfg.net.ifaces && i < |f.cells[a]| && f.cells[a][i] == n
  {
    IsNode(cfg, s, none, u);
    IsNode(cfg, s, none, y);
    SameId(cfg, s, none, u, y);
    hide DT.Reachable, D.AllDone, Net.Connected, Has, RowIs;
    n := OneHop(Map(cfg, s, none), rt, s.nodes[u].id, s.nodes[y].id);
  }

  lemma MustBeAmple(cfg: Config, s: D.State, none: nat, rt: seq<seq<bv8>>, loopback: bv8, t: I.State, a: nat)
    requires Up(cfg, s, none, rt, loopback, t) && Map(cfg, s, none).Framed() && Map(cfg, s, none).Node(a)
    requires forall u: nat, y: nat :: u < cfg.net.boards && y < cfg.net.boards && u != y ==> SendsOn(cfg, s, t, u, y)
    ensures Ample(Map(cfg, s, none), a)
  {
    UpIsDone(cfg, s, none, rt, loopback, t);
    hide Up, Has, Ample, Fabric.Ball, Toward, DT.Reachable, D.AllDone, Net.Connected;
    var f := Map(cfg, s, none);
    DiscoveredFabric(cfg, s, none);
    var u := DT.BoardOf(cfg, s, a);
    forall d: nat | f.Node(d) && d != a ensures rt[a][d] != 0 {
      var y := DT.BoardOf(cfg, s, d);
      assert SendsOn(cfg, s, t, u, y);
      var i: nat :| Picks(t, d, u, i);
      RegisterIsRoute(cfg, s, none, rt, loopback, t, u, y, i);
      HasNone(rt[a][d]);
    }
    FullRow(f, a, rt[a]);
    AmpleIff(f, a, rt[a]);
  }

  lemma FullRow(f: Fabric, a: nat, row: seq<bv8>)
    requires f.Framed() && f.Node(a) && Searched(f, a, row) && |row| >= f.last
    requires forall d: nat :: f.Node(d) && d != a ==> row[d] != 0
    ensures RowIs(f, a, row, f.Nodes())
  {
    hide Toward, Fabric.Ball, Stops;
    var rounds: nat :| Stops(f, a, rounds) && RowIs(f, a, row, f.Ball(a, rounds + 1));
    BallNodes(f, a, rounds + 1);
    assert f.Ball(a, rounds + 1) == f.Nodes();
  }
}
