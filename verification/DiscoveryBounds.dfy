/** The code of a board stays within its matrix and its registers, in every state discovery can reach,
    so that there each of its operations is the protocol's step. */
module DiscoveryBounds {
  import opened FiniteSets
  import opened Networks
  import opened DepthFirst
  import opened SearchTree
  import opened Renumbering
  import opened TopologyTables
  import opened Knowledge
  import opened Discovery
  import opened DiscoveryInv
  import opened DiscoverySteps
  import opened DiscoveryRoutes
  import opened DiscoveryTruth
  import opened DiscoveryRuns
  import opened DiscoveryTheorems
  import opened DiscoveryDevice

  lemma IdBound(cfg: Config, d: Search, b: nat)
    requires cfg.Valid() && Numbering(cfg, d) && b in d.pos
    ensures Id(cfg, d, b) < cfg.rows && cfg.masterId + |d.order| <= cfg.rows
  {
    OrderBound(cfg, d);
  }

  /** While a board has no number, one more can be handed out. */
  lemma OneMore(cfg: Config, d: Search, b: nat)
    requires cfg.Valid() && Numbering(cfg, d) && b < cfg.net.boards && b !in d.pos
    ensures cfg.masterId + |d.order| < cfg.rows
  {
    forall i, j | 0 <= i < j < |d.order| ensures d.order[i] != d.order[j] {
      assert d.pos[d.order[i]] == i && d.pos[d.order[j]] == j;
    }
    Pigeonhole(d.order, cfg.net.boards);
    assert b !in d.order;
  }

  lemma LinkBound(cfg: Config, d: Search, l: Link)
    requires cfg.Valid() && Numbering(cfg, d) && TrueLink(cfg, d, l)
    ensures l.src < cfg.rows && l.dst < cfg.rows && l.srcIf < cfg.net.ifaces && l.dstIf < cfg.net.ifaces
  {
    CellInRange(cfg, d, Slot(l.src, l.srcIf), l.dst);
    CellInRange(cfg, d, Slot(l.dst, l.dstIf), l.src);
  }

  lemma TableBound(t: Table, rows: nat, ifaces: nat)
    requires Symmetric(t, rows, ifaces)
    ensures forall k :: k in t ==> t[k] < rows
  {
    forall k | k in t ensures t[k] < rows {
      assert Mirrored(t, rows, ifaces, k);
      var w :| 0 <= w < ifaces && Slot(t[k], w) in t && t[Slot(t[k], w)] == k.id;
      assert Mirrored(t, rows, ifaces, Slot(t[k], w));
    }
  }

  lemma AskedFits(cfg: Config, s: State, v: View, p: Port)
    requires cfg.Valid() && Good(cfg, s, v) && v.token.Asking? && p in cfg.net.wire && s.chan[p] != []
    ensures Fits(s.nodes[p.board], cfg.rows, cfg.net.ifaces, p.iface, s.chan[p][0])
  {
    hide Stacked, Tracked, Finished, Passed, Ancestors, Retired, Idlers, Routes, Truth, Tree, Tables, Rest, Only,
         TableIs, Numbering;
    var d := v.d;
    HeadOf(cfg, s, cfg.net.wire[TopPort(d)], [ReqId(s.nodes[Top(d).board].id)], p);
    AskedBoard(cfg, s, v);
    IdBound(cfg, d, Top(d).board);
  }

  lemma AnswerFits(cfg: Config, s: State, v: View, p: Port)
    requires cfg.Valid() && Good(cfg, s, v) && v.token.Answering? && p in cfg.net.wire && s.chan[p] != []
    ensures Fits(s.nodes[p.board], cfg.rows, cfg.net.ifaces, p.iface, s.chan[p][0])
  {
    hide Stacked, Tracked, Finished, Passed, Ancestors, Retired, Idlers, Routes, Truth, Tree, Tables, Rest, Only,
         TableIs, Numbering;
    var d := v.d;
    var q := cfg.net.wire[TopPort(d)];
    HeadOf(cfg, s, TopPort(d), [Answer(cfg, d, q, s.nodes[Top(d).board].id)], p);
    IdBound(cfg, d, Top(d).board);
    if q.board in d.pos {
      IdBound(cfg, d, q.board);
    } else {
      OneMore(cfg, d, q.board);
    }
  }

  lemma ReturnFits(cfg: Config, s: State, v: View, p: Port)
    requires cfg.Valid() && Good(cfg, s, v) && v.token.Returning? && p in cfg.net.wire && s.chan[p] != []
    ensures Fits(s.nodes[p.board], cfg.rows, cfg.net.ifaces, p.iface, s.chan[p][0])
  {
    hide Stacked, Tracked, Finished, Passed, Ancestors, Retired, Idlers, Routes, Tree, Tables, Rest, Only, TableIs,
         Numbering;
    var d, ls := v.d, v.token.ls;
    var below, n := d.stack[|d.stack| - 2], s.nodes[Top(v.d).board];
    HeadOf(cfg, s, Port(below.board, below.iface), Messages(ls) + [EndTopology(n.next)], p);
    ParentWaits(cfg, s, v);
    IdBound(cfg, d, Top(d).board);
    if ls != [] {
      assert TrueLink(cfg, d, ls[0]);
      LinkBound(cfg, d, ls[0]);
    }
  }

  lemma NamedFits(cfg: Config, s: State, v: View, p: Port)
    requires cfg.Valid() && Good(cfg, s, v) && (v.token.Naming? || v.token.Starting?) && p in cfg.net.wire
             && s.chan[p] != []
    ensures Fits(s.nodes[p.board], cfg.rows, cfg.net.ifaces, p.iface, s.chan[p][0])
  {
    hide Stacked, Tracked, Finished, Passed, Ancestors, Retired, Idlers, Routes, Truth, Tree, Tables, Rest, Only,
         TableIs, Numbering;
    var d, b := v.d, Top(v.d).board;
    var from, to := Id(cfg, d, d.stack[|d.stack| - 2].board), Id(cfg, d, b);
    var msgs := if v.token.Naming? then [SetId(from, to), Start(from, to)] else [Start(from, to)];
    HeadOf(cfg, s, Port(b, d.up[b]), msgs, p);
    IdBound(cfg, d, b);
  }

  /** Whatever is at the head of a cable, the board that takes it touches only cells and registers
      that exist. */
  lemma HeadFits(cfg: Config, s: State, p: Port)
    requires cfg.Valid() && Reachable(cfg, s) && p in cfg.net.wire && s.chan[p] != []
    ensures Fits(s.nodes[p.board], cfg.rows, cfg.net.ifaces, p.iface, s.chan[p][0])
  {
    var v := ReachableGood(cfg, s);
    match v.token
    case Asking => AskedFits(cfg, s, v, p);
    case Answering => AnswerFits(cfg, s, v, p);
    case Naming => NamedFits(cfg, s, v, p);
    case Starting => NamedFits(cfg, s, v, p);
    case Returning(_) => ReturnFits(cfg, s, v, p);
    case _ => assert false;
  }

  /** The board that scans has a row of its own, and all ids in its table are rows. */
  lemma ScannerFits(cfg: Config, s: State, b: nat)
    requires cfg.Valid() && Reachable(cfg, s) && b < |s.nodes| && s.nodes[b].pc.Scan?
    ensures ScanFits(s.nodes[b], cfg.rows)
  {
    hide Stacked, Tracked, Finished, Passed, Ancestors, Retired, Idlers, Routes, Tree, Tables, Rest, Only, TableIs,
         Numbering, Symmetric, TrueCell;
    var v := ReachableGood(cfg, s);
    OnlyTopScans(cfg, s, v, b);
    IdBound(cfg, v.d, b);
    assert Truthful(cfg, v.d, s.nodes[b].topo);
    TableBound(s.nodes[b].topo, cfg.rows, cfg.net.ifaces);
  }

  /** A device has the size that the network asks for. */
  ghost predicate Made(cfg: Config, dev: Device)
    reads dev
  {
    dev.Valid() && dev.matrix.Length0 == cfg.rows && dev.matrix.Length1 == cfg.net.ifaces
  }

  /** The code takes a delivered message as the protocol does, in every reachable state. */
  method TakeMessage(cfg: Config, dev: Device, ghost s: State, p: Port, m: Msg)
    requires cfg.Valid() && Reachable(cfg, s) && Enabled(cfg, s, Deliver(p)) && m == s.chan[p][0]
    requires Made(cfg, dev) && dev.View() == s.nodes[p.board]
    modifies dev, dev.matrix, dev.regs
    ensures dev.View() == Next(cfg, s, Deliver(p)).nodes[p.board]
  {
    assert Shape(cfg, s) && p in s.chan.Keys;
    hide Consume, Reachable;
    HeadFits(cfg, s, p);
    dev.Receive(cfg, p.iface, m);
  }

  /** And it moves its scan along as the protocol does. */
  method MoveAlong(cfg: Config, dev: Device, ghost s: State, b: nat)
    requires cfg.Valid() && Reachable(cfg, s) && Enabled(cfg, s, Local(b))
    requires Made(cfg, dev) && dev.View() == s.nodes[b]
    modifies dev
    ensures dev.View() == Next(cfg, s, Local(b)).nodes[b]
  {
    assert Shape(cfg, s);
    hide ScanOne, Reachable;
    ScannerFits(cfg, s, b);
    dev.ScanInterface(cfg, b);
  }
}
