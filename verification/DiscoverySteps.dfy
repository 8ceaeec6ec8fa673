/** Every step of the protocol keeps the invariant and moves the search as its token says. */
module DiscoverySteps {
  import opened Networks
  import opened DepthFirst
  import opened TopologyTables
  import opened Knowledge
  import opened Discovery
  import opened DiscoveryInv

  // ----- what a step leaves alone -----

  /** r differs from s only in the state of board b and in messages under way. */
  ghost predicate OnlyBoard(s: State, r: State, b: nat) {
    |r.nodes| == |s.nodes| && forall c :: 0 <= c < |s.nodes| && c != b ==> r.nodes[c] == s.nodes[c]
  }

  lemma KeepRetired(cfg: Config, s: State, r: State, d: Search, b: nat)
    requires Shape(cfg, s) && Shape(cfg, r) && Retired(cfg, s, d) && OnlyBoard(s, r, b)
    requires b !in d.last
             || (b < |s.nodes| && r.nodes[b].pc == s.nodes[b].pc && r.nodes[b].id == s.nodes[b].id
                && r.nodes[b].up == s.nodes[b].up)
    ensures Retired(cfg, r, d)
  {
  }

  lemma KeepAncestors(cfg: Config, s: State, r: State, d: Search, b: nat)
    requires Shape(cfg, s) && Shape(cfg, r) && Ancestors(cfg, s, d) && OnlyBoard(s, r, b)
    requires b < |s.nodes|
    requires (forall j :: 0 <= j < |d.stack| - 1 ==> d.stack[j].board != b)
             || (r.nodes[b].pc == s.nodes[b].pc && r.nodes[b].id == s.nodes[b].id && r.nodes[b].up == s.nodes[b].up)
    ensures Ancestors(cfg, r, d)
  {
    forall j | 0 <= j < |d.stack| - 1 ensures Ancestor(cfg, r, d, j) {
      assert Ancestor(cfg, s, d, j);
    }
  }

  lemma KeepTables(cfg: Config, s: State, r: State, v: View, b: nat)
    requires cfg.net.Valid() && Shape(cfg, s) && Shape(cfg, r) && Tables(cfg, s, v) && OnlyBoard(s, r, b)
    requires b < |s.nodes|
    requires (forall j :: 0 <= j < |v.d.stack| - (if v.token.Returning? then 2 else 0) ==> v.d.stack[j].board != b)
             || r.nodes[b].topo == s.nodes[b].topo
    ensures Tables(cfg, r, v)
  {
    forall j | 0 <= j < |v.d.stack| - (if v.token.Returning? then 2 else 0) ensures TableAt(cfg, r, v.d, j) {
      assert TableAt(cfg, s, v.d, j);
    }
  }

  // ----- sending -----

  lemma TransmitOnly(cfg: Config, s: State, q: Port, msgs: seq<Msg>, b: nat)
    requires cfg.net.Valid() && Shape(cfg, s) && Only(cfg, s, q, msgs) && Enabled(cfg, s, Transmit(b))
    ensures Only(cfg, Next(cfg, s, Transmit(b)), q, msgs)
  {
    var r := Next(cfg, s, Transmit(b));
    var n := s.nodes[b];
    assert cfg.net.wire[q] == Port(b, n.outIf);
    assert (s.chan[q] + [n.out[0]]) + n.out[1..] == s.chan[q] + n.out;
  }

  lemma TransmitFront(cfg: Config, s: State, v: View, b: nat)
    requires cfg.net.Valid() && Shape(cfg, s) && Enabled(cfg, s, Transmit(b))
    requires |v.d.stack| > 0 && Top(v.d).board < |s.nodes| && Front(cfg, s, v)
    ensures Front(cfg, Next(cfg, s, Transmit(b)), v)
  {
    var d, p := v.d, TopPort(v.d);
    var n := s.nodes[p.board];
    match v.token {
      case Scanning =>
      case Asking => TransmitOnly(cfg, s, cfg.net.wire[p], [ReqId(n.id)], b);
      case Answering => TransmitOnly(cfg, s, p, [Answer(cfg, d, cfg.net.wire[p], n.id)], b);
      case Naming =>
        var from, to := Id(cfg, d, d.stack[|d.stack| - 2].board), Id(cfg, d, p.board);
        TransmitOnly(cfg, s, Port(p.board, d.up[p.board]), [SetId(from, to), Start(from, to)], b);
      case Starting =>
        var from, to := Id(cfg, d, d.stack[|d.stack| - 2].board), Id(cfg, d, p.board);
        TransmitOnly(cfg, s, Port(p.board, d.up[p.board]), [Start(from, to)], b);
      case Returning(ls) =>
        var below := d.stack[|d.stack| - 2];
        TransmitOnly(cfg, s, Port(below.board, below.iface), Messages(ls) + [EndTopology(n.next)], b);
      case Halted =>
    }
  }

  /** Handing a queued message to a cable changes nothing that the invariant sees. */
  lemma TransmitStep(cfg: Config, s: State, v: View, b: nat)
    requires DiscoveryInv.Inv(cfg, s, v) && Enabled(cfg, s, Transmit(b))
    ensures DiscoveryInv.Inv(cfg, Next(cfg, s, Transmit(b)), v)
  {
    hide Numbering, Stacked, Tracked, Finished, Passed, Front, Tables, Ancestors, Retired;
    var r := Next(cfg, s, Transmit(b));
    TransmitFront(cfg, s, v, b);
    KeepRetired(cfg, s, r, v.d, b);
    KeepAncestors(cfg, s, r, v.d, b);
    KeepTables(cfg, s, r, v, b);
    assert Idlers(cfg, r, v);
  }

  // ----- scanning -----

  /** The top board stands before a cable whose far end it already knows: the far end has a number. */
  lemma KnownFarEnd(cfg: Config, s: State, v: View)
    requires DiscoveryInv.Inv(cfg, s, v) && v.token.Scanning?
    requires TopPort(v.d) in cfg.net.wire
    ensures var p, top := TopPort(v.d), |v.d.stack| - 1;
            var q := cfg.net.wire[p];
            && (Slot(s.nodes[p.board].id, p.iface) in s.nodes[p.board].topo <==> q.board in v.d.last)
            && (q.board in v.d.last <==> p in Ends(cfg.net, Scanned(cfg, v.d, top)))
            && (q.board in v.d.last ==> q.board in v.d.pos)
  {
    var d, p, top := v.d, TopPort(v.d), |v.d.stack| - 1;
    var q := cfg.net.wire[p];
    assert TableAt(cfg, s, d, top);
    KnownCell(cfg, d, s.nodes[p.board].topo, Ends(cfg.net, Scanned(cfg, d, top)), p);
    if q.board in d.last {
      assert Behind(cfg, d, q);
      assert d.stack[top].board == p.board;
      assert Below(d, top, q.board);
      assert q in Scanned(cfg, d, top);
    }
    if p in Ends(cfg.net, Scanned(cfg, d, top)) {
      assert d.stack[top].board == p.board;
      assert p !in Scanned(cfg, d, top);
      assert q in Scanned(cfg, d, top);
    }
  }

  ghost predicate MayPass(cfg: Config, s: State, d: Search)
    requires Shape(cfg, s) && |d.stack| > 0 && Top(d).board < |s.nodes|
  {
    var p, n := TopPort(d), s.nodes[Top(d).board];
    p.iface < cfg.net.ifaces && (p !in cfg.net.wire || Slot(n.id, p.iface) in n.topo)
  }

  lemma PassEnds(cfg: Config, d: Search)
    requires cfg.net.Valid() && |d.stack| > 0
    requires TopPort(d) in cfg.net.wire ==> TopPort(d) in Ends(cfg.net, Scanned(cfg, d, |d.stack| - 1))
    ensures var top := |d.stack| - 1;
            Ends(cfg.net, Scanned(cfg, Skip(d), top)) == Ends(cfg.net, Scanned(cfg, d, top))
  {
    var p, top := TopPort(d), |d.stack| - 1;
    ScannedSkip(cfg, d);
    if p in cfg.net.wire {
      EndsUnion(cfg.net, Scanned(cfg, d, top), {p});
      EndsOne(cfg.net, p);
    }
  }

  lemma ScanSkip(cfg: Config, s: State, v: View)
    requires DiscoveryInv.Inv(cfg, s, v) && v.token.Scanning? && MayPass(cfg, s, v.d)
    ensures DiscoveryInv.Inv(cfg, Next(cfg, s, Local(Top(v.d).board)), View(Skip(v.d), Scanning))
  {
    hide Numbering, Stacked, Tracked, Finished, Passed, Ancestors, Retired, Scanned, Ends, TableIs, Below;
    var d := v.d;
    var r := Next(cfg, s, Local(Top(d).board));
    if TopPort(d) in cfg.net.wire {
      KnownFarEnd(cfg, s, v);
    }
    PassEnds(cfg, d);
    SkipInv(cfg, d);
    assert TableAt(cfg, s, d, |d.stack| - 1);
    SkipTables(cfg, s, r, d);
    SkipRest(cfg, s, r, d);
    assert Idlers(cfg, r, View(Skip(d), Scanning));
    assert Front(cfg, r, View(Skip(d), Scanning));
  }

  /** Below the top, tables and stack agree with the search after a skip. */
  lemma SkipTables(cfg: Config, s: State, r: State, d: Search)
    requires DiscoveryInv.Inv(cfg, s, View(d, Scanning)) || DiscoveryInv.Inv(cfg, s, View(d, Answering))
    requires Shape(cfg, r) && OnlyBoard(s, r, Top(d).board)
    requires TableIs(cfg, d, r.nodes[Top(d).board].topo, Ends(cfg.net, Scanned(cfg, Skip(d), |d.stack| - 1)))
    ensures Tables(cfg, r, View(Skip(d), Scanning))
  {
    hide Numbering, Finished, Passed, Idlers, Front, Linked, Ancestors, Scanned, Ends, TableIs;
    var e, top := Skip(d), |d.stack| - 1;
    forall j | 0 <= j < |e.stack| ensures TableAt(cfg, r, e, j) {
      if j < top {
        assert d.pos[d.stack[j].board] < d.pos[d.stack[top].board];
        assert TableAt(cfg, s, d, j);
        ScannedKept(cfg, d, e, j);
        SameTable(cfg, d, e, s.nodes[d.stack[j].board].topo, Ends(cfg.net, Scanned(cfg, d, j)));
      } else {
        SameTable(cfg, d, e, r.nodes[Top(d).board].topo, Ends(cfg.net, Scanned(cfg, e, top)));
      }
    }
  }

  lemma SkipRest(cfg: Config, s: State, r: State, d: Search)
    requires DiscoveryInv.Inv(cfg, s, View(d, Scanning)) || DiscoveryInv.Inv(cfg, s, View(d, Answering))
    requires Shape(cfg, r) && OnlyBoard(s, r, Top(d).board)
    ensures Ancestors(cfg, r, Skip(d)) && Retired(cfg, r, Skip(d))
  {
    hide Numbering, Tracked, Finished, Passed, Tables, Idlers, Front, Linked;
    var e, top := Skip(d), |d.stack| - 1;
    forall j | 0 <= j < |e.stack| - 1 ensures Ancestor(cfg, r, e, j) {
      assert Ancestor(cfg, s, d, j);
      assert d.pos[d.stack[j].board] < d.pos[d.stack[top].board];
    }
    assert d.stack[top].board !in d.last;
  }

  lemma ScanAsk(cfg: Config, s: State, v: View)
    requires DiscoveryInv.Inv(cfg, s, v) && v.token.Scanning?
    requires Top(v.d).iface < cfg.net.ifaces && !MayPass(cfg, s, v.d)
    ensures DiscoveryInv.Inv(cfg, Next(cfg, s, Local(Top(v.d).board)), View(v.d, Asking))
  {
    hide Numbering, Tracked, Finished, Passed, Tables, Ancestors, Retired, Scanned, Ends, TableIs, Below, Linked;
    var d, p := v.d, TopPort(v.d);
    var r := Next(cfg, s, Local(p.board));
    KnownFarEnd(cfg, s, v);
    AboveOthers(cfg, d);
    KeepRetired(cfg, s, r, d, p.board);
    KeepAncestors(cfg, s, r, d, p.board);
    KeepTables(cfg, s, r, v, p.board);
    assert Tables(cfg, r, View(d, Asking)) by {
      SameTables(cfg, r, v, View(d, Asking));
    }
    assert Idlers(cfg, r, View(d, Asking));
    assert Only(cfg, r, cfg.net.wire[p], [ReqId(s.nodes[p.board].id)]);
  }

  /** The top board is unfinished and stands on the stack only once. */
  lemma AboveOthers(cfg: Config, d: Search)
    requires Stacked(cfg, d)
    ensures Top(d).board !in d.last && (Top(d).board == cfg.master <==> |d.stack| == 1)
    ensures forall j :: 0 <= j < |d.stack| - 1 ==> d.stack[j].board != Top(d).board
  {
    forall j | 0 <= j < |d.stack| - 1 ensures d.stack[j].board != Top(d).board {
      assert d.pos[d.stack[j].board] < d.pos[d.stack[|d.stack| - 1].board];
    }
  }

  lemma SameTables(cfg: Config, s: State, v: View, w: View)
    requires cfg.net.Valid() && Shape(cfg, s) && Tables(cfg, s, v) && v.d == w.d && !v.token.Returning?
    ensures Tables(cfg, s, w)
  {
    forall j | 0 <= j < |w.d.stack| - (if w.token.Returning? then 2 else 0) ensures TableAt(cfg, s, w.d, j) {
      assert TableAt(cfg, s, v.d, j);
    }
  }

  lemma ScanHalt(cfg: Config, s: State, v: View)
    requires DiscoveryInv.Inv(cfg, s, v) && v.token.Scanning?
    requires Top(v.d).iface == cfg.net.ifaces && Top(v.d).board == cfg.master
    ensures DiscoveryInv.Inv(cfg, Next(cfg, s, Local(cfg.master)), View(v.d, Halted))
  {
    hide Numbering, Tracked, Finished, Passed, Tables, Ancestors, Retired, Scanned, Ends, TableIs, Below, Linked;
    var d := v.d;
    var r := Next(cfg, s, Local(cfg.master));
    AboveOthers(cfg, d);
    KeepRetired(cfg, s, r, d, cfg.master);
    KeepAncestors(cfg, s, r, d, cfg.master);
    KeepTables(cfg, s, r, v, cfg.master);
    SameTables(cfg, r, v, View(d, Halted));
    assert Idlers(cfg, r, View(d, Halted));
  }

  /** A finished slave streams its table: once replayed, the parent knows what both knew. */
  lemma StreamMerges(cfg: Config, s: State, v: View)
    requires cfg.Valid() && DiscoveryInv.Inv(cfg, s, v) && v.token.Scanning?
    requires Top(v.d).iface == cfg.net.ifaces && |v.d.stack| > 1
    ensures var d, n := v.d, |v.d.stack| - 1;
            var ls := Stream(s.nodes[Top(d).board].topo, cfg.rows, cfg.net.ifaces, 0, 0);
            && d.stack[n - 1].board < |s.nodes|
            && TableIs(cfg, d, Replay(s.nodes[d.stack[n - 1].board].topo, ls),
                       Ends(cfg.net, Scanned(cfg, Pop(d), n - 1)))
  {
    hide Stacked, Tracked, Finished, Passed, Ancestors, Retired, Scanned, TableIs, Below, Linked, Numbering, Idlers;
    var d, n := v.d, |v.d.stack| - 1;
    assert TableAt(cfg, s, d, n - 1) && TableAt(cfg, s, d, n);
    var mine, theirs := s.nodes[Top(d).board].topo, s.nodes[d.stack[n - 1].board].topo;
    OrderBound(cfg, d);
    TableSymmetric(cfg, d, mine, Ends(cfg.net, Scanned(cfg, d, n)), cfg.rows);
    ReplayMerges(theirs, mine, cfg.rows, cfg.net.ifaces);
    MergeTables(cfg, d, theirs, Ends(cfg.net, Scanned(cfg, d, n - 1)), mine, Ends(cfg.net, Scanned(cfg, d, n)));
    EndsUnion(cfg.net, Scanned(cfg, d, n - 1), Scanned(cfg, d, n));
    ScannedPop(cfg, d);
  }

  lemma ScanReturn(cfg: Config, s: State, v: View)
    requires cfg.Valid() && DiscoveryInv.Inv(cfg, s, v) && v.token.Scanning?
    requires Top(v.d).iface == cfg.net.ifaces && Top(v.d).board != cfg.master
    ensures var ls := Stream(s.nodes[Top(v.d).board].topo, cfg.rows, cfg.net.ifaces, 0, 0);
            DiscoveryInv.Inv(cfg, Next(cfg, s, Local(Top(v.d).board)), View(v.d, Returning(ls)))
  {
    hide Numbering, Stacked, Tracked, Finished, Passed, Tables, Ancestors, Retired, Scanned, Ends, TableIs, Below, Only;
    var d, b := v.d, Top(v.d).board;
    var ls := Stream(s.nodes[b].topo, cfg.rows, cfg.net.ifaces, 0, 0);
    var r := Next(cfg, s, Local(b));
    AboveOthers(cfg, d);
    StreamMerges(cfg, s, v);
    KeepRetired(cfg, s, r, d, b);
    KeepAncestors(cfg, s, r, d, b);
    KeepTables(cfg, s, r, v, b);
    SameTables(cfg, r, v, View(d, Returning(ls)));
    assert Idlers(cfg, r, View(d, Returning(ls)));
    ReturnOnly(cfg, s, r, d);
  }

  /** All that is under way after the top board queued its messages is on the cable to its parent. */
  lemma ReturnOnly(cfg: Config, s: State, r: State, d: Search)
    requires cfg.net.Valid() && Shape(cfg, s) && Shape(cfg, r) && Quiet(cfg, s) && r.chan == s.chan
    requires Stacked(cfg, d) && |d.stack| > 1 && Top(d).board < |s.nodes| && OnlyBoard(s, r, Top(d).board)
    requires Top(d).board in d.up && r.nodes[Top(d).board].outIf == d.up[Top(d).board]
    ensures var below := d.stack[|d.stack| - 2];
            Only(cfg, r, Port(below.board, below.iface), r.nodes[Top(d).board].out)
  {
    assert Linked(cfg, d, |d.stack| - 1);
    assert [] + r.nodes[Top(d).board].out == r.nodes[Top(d).board].out;
  }

  // ----- receiving -----

  /** Only the port the messages under way lead to can receive. */
  lemma DeliverHead(cfg: Config, s: State, q: Port, msgs: seq<Msg>, p: Port)
    requires cfg.net.Valid() && Shape(cfg, s) && Only(cfg, s, q, msgs) && Enabled(cfg, s, Deliver(p))
    ensures p == q && |msgs| > 0 && s.chan[p][0] == msgs[0]
    ensures |msgs| == 1 ==> s.chan[p][1..] == [] && s.nodes[cfg.net.wire[q].board].out == []
  {
    assert msgs[0] == s.chan[q][0];
  }

  /** A received message that causes no sends leaves the rest of the messages under way. */
  lemma DeliverRest(cfg: Config, s: State, q: Port, msgs: seq<Msg>)
    requires cfg.net.Valid() && Shape(cfg, s) && Only(cfg, s, q, msgs) && Enabled(cfg, s, Deliver(q))
    requires Next(cfg, s, Deliver(q)).nodes[q.board].out == []
    ensures |msgs| > 0 && Only(cfg, Next(cfg, s, Deliver(q)), q, msgs[1..])
    ensures |msgs| == 1 ==> Quiet(cfg, Next(cfg, s, Deliver(q)))
  {
    assert msgs[1..] == s.chan[q][1..] + s.nodes[cfg.net.wire[q].board].out;
  }

  /** A received message, the last under way, that causes sends over the cable it came from. */
  lemma DeliverReply(cfg: Config, s: State, q: Port, msg: Msg)
    requires cfg.net.Valid() && Shape(cfg, s) && Only(cfg, s, q, [msg]) && Enabled(cfg, s, Deliver(q))
    requires Next(cfg, s, Deliver(q)).nodes[q.board].outIf == q.iface
    ensures var r := Next(cfg, s, Deliver(q)); Only(cfg, r, cfg.net.wire[q], r.nodes[q.board].out)
  {
    var r := Next(cfg, s, Deliver(q));
    DeliverHead(cfg, s, q, [msg], q);
    assert [] + r.nodes[q.board].out == r.nodes[q.board].out;
  }

  lemma AskedStep(cfg: Config, s: State, v: View, p: Port)
    requires DiscoveryInv.Inv(cfg, s, v) && v.token.Asking? && Enabled(cfg, s, Deliver(p))
    ensures DiscoveryInv.Inv(cfg, Next(cfg, s, Deliver(p)), View(v.d, Answering))
  {
    hide Numbering, Stacked, Finished, Passed, Tables, Ancestors, Retired, Scanned, Ends, TableIs, Below, Only;
    var d, q := v.d, cfg.net.wire[TopPort(v.d)];
    var n := s.nodes[Top(d).board];
    var r := Next(cfg, s, Deliver(p));
    DeliverHead(cfg, s, q, [ReqId(n.id)], p);
    AskedBoard(cfg, s, v);
    DeliverReply(cfg, s, q, ReqId(n.id));
    KeepRetired(cfg, s, r, d, p.board);
    KeepAncestors(cfg, s, r, d, p.board);
    KeepTables(cfg, s, r, v, p.board);
    SameTables(cfg, r, v, View(d, Answering));
    assert Idlers(cfg, r, View(d, Answering));
  }

  /** REQ_ID reaches an idle board without a number or an ancestor that waits for its child. */
  lemma AskedBoard(cfg: Config, s: State, v: View)
    requires DiscoveryInv.Inv(cfg, s, v) && v.token.Asking?
    ensures var d, c := v.d, cfg.net.wire[TopPort(v.d)].board;
            && c < |s.nodes| && c != Top(d).board && c !in d.last
            && (c in d.pos ==> s.nodes[c].pc.WaitEnd? && s.nodes[c].id == Id(cfg, d, c))
            && (c !in d.pos ==> s.nodes[c].pc.Idle? && forall j :: 0 <= j < |d.stack| ==> d.stack[j].board != c)
  {
    hide Numbering, Finished, Passed, Tables, Retired, Scanned, Ends, TableIs, Below, Only, Linked;
    var d, q := v.d, cfg.net.wire[TopPort(v.d)];
    if q.board in d.pos {
      assert OnStack(d, q.board);
      var j :| 0 <= j < |d.stack| && d.stack[j].board == q.board;
      assert Ancestor(cfg, s, d, j);
    }
  }

  /** An ancestor's answer: the cable is recorded and the scan moves on. */
  lemma AnsweredOld(cfg: Config, s: State, v: View, p: Port)
    requires DiscoveryInv.Inv(cfg, s, v) && v.token.Answering? && Enabled(cfg, s, Deliver(p))
    requires cfg.net.wire[TopPort(v.d)].board in v.d.pos
    ensures DiscoveryInv.Inv(cfg, Next(cfg, s, Deliver(p)), View(Skip(v.d), Scanning))
  {
    hide Numbering, Stacked, Finished, Passed, Ancestors, Retired, Scanned, Ends, TableIs, Below, Only, Quiet, Tracked;
    var d, top := v.d, |v.d.stack| - 1;
    var q := cfg.net.wire[TopPort(d)];
    var n := s.nodes[Top(d).board];
    var r := Next(cfg, s, Deliver(p));
    DeliverHead(cfg, s, TopPort(d), [Answer(cfg, d, q, n.id)], p);
    DeliverRest(cfg, s, p, [Answer(cfg, d, q, n.id)]);
    assert TableAt(cfg, s, d, top);
    RecordCable(cfg, d, n.topo, Ends(cfg.net, Scanned(cfg, d, top)), p);
    ScannedSkip(cfg, d);
    EndsUnion(cfg.net, Scanned(cfg, d, top), {p});
    EndsOne(cfg.net, p);
    SkipInv(cfg, d);
    SkipTables(cfg, s, r, d);
    SkipRest(cfg, s, r, d);
    assert Idlers(cfg, r, View(Skip(d), Scanning));
  }

  /** The answer of a board without a number: it gets the next one and joins the stack. */
  lemma AnsweredNew(cfg: Config, s: State, v: View, p: Port)
    requires DiscoveryInv.Inv(cfg, s, v) && v.token.Answering? && Enabled(cfg, s, Deliver(p))
    requires cfg.net.wire[TopPort(v.d)].board !in v.d.pos
    ensures DiscoveryInv.Inv(cfg, Next(cfg, s, Deliver(p)), View(Push(cfg, v.d), Naming))
  {
    hide Numbering, Stacked, Finished, Passed, Ancestors, Retired, Scanned, Ends, TableIs, Below, Only, Quiet,
         Tracked, Tables;
    var d := v.d;
    var q := cfg.net.wire[TopPort(d)];
    var n := s.nodes[Top(d).board];
    var r := Next(cfg, s, Deliver(p));
    DeliverHead(cfg, s, TopPort(d), [Answer(cfg, d, q, n.id)], p);
    DeliverReply(cfg, s, p, Answer(cfg, d, q, n.id));
    PushInv(cfg, d);
    PushTables(cfg, s, r, v);
    PushRest(cfg, s, r, v);
    assert Idlers(cfg, r, View(Push(cfg, d), Naming));
    assert cfg.net.wire[p] == q;
  }

  lemma PushTables(cfg: Config, s: State, r: State, v: View)
    requires DiscoveryInv.Inv(cfg, s, v) && v.token.Answering? && cfg.net.wire[TopPort(v.d)].board !in v.d.pos
    requires Shape(cfg, r) && OnlyBoard(s, r, Top(v.d).board)
    requires var n, q := s.nodes[Top(v.d).board], cfg.net.wire[TopPort(v.d)];
             r.nodes[Top(v.d).board].topo == Record(n.topo, Link(n.id, n.next + 1, Top(v.d).iface, q.iface))
    ensures Tables(cfg, r, View(Push(cfg, v.d), Naming))
  {
    hide Numbering, Stacked, Tracked, Finished, Passed, Ancestors, Retired, Scanned, Ends, TableIs, Below, Only, Linked;
    var d, e, top := v.d, Push(cfg, v.d), |v.d.stack| - 1;
    assert TableAt(cfg, s, d, top);
    PushInv(cfg, d);
    PushTop(cfg, d, s.nodes[Top(d).board].topo);
    forall j | 0 <= j < |e.stack| ensures TableAt(cfg, r, e, j) {
      if j < top {
        PushLower(cfg, s, r, v, j);
      }
    }
  }

  lemma PushLower(cfg: Config, s: State, r: State, v: View, j: nat)
    requires cfg.net.Valid() && Shape(cfg, s) && Shape(cfg, r) && DepthFirst.Inv(cfg, v.d)
    requires Tables(cfg, s, v) && !v.token.Returning? && OnlyBoard(s, r, Top(v.d).board)
    requires TopPort(v.d) in cfg.net.wire && cfg.net.wire[TopPort(v.d)].board !in v.d.pos
    requires j < |v.d.stack| - 1
    ensures TableAt(cfg, r, Push(cfg, v.d), j)
  {
    hide Numbering, Finished, Passed, Scanned, Ends, TableIs, Below, Linked;
    var d, e, top := v.d, Push(cfg, v.d), |v.d.stack| - 1;
    assert d.pos[d.stack[j].board] < d.pos[d.stack[top].board];
    assert TableAt(cfg, s, d, j);
    ScannedKept(cfg, d, e, j);
    SameTable(cfg, d, e, s.nodes[d.stack[j].board].topo, Ends(cfg.net, Scanned(cfg, d, j)));
  }

  /** The tables of the parent and of the new board after a board joins the stack. */
  lemma PushTop(cfg: Config, d: Search, t: Table)
    requires cfg.net.Valid() && DepthFirst.Inv(cfg, d)
    requires TopPort(d) in cfg.net.wire && cfg.net.wire[TopPort(d)].board !in d.pos
    requires DepthFirst.Inv(cfg, Push(cfg, d))
    requires TableIs(cfg, d, t, Ends(cfg.net, Scanned(cfg, d, |d.stack| - 1)))
    ensures var e, p, q := Push(cfg, d), TopPort(d), cfg.net.wire[TopPort(d)];
            TableIs(cfg, e, Record(t, Link(Id(cfg, e, p.board), Id(cfg, e, q.board), p.iface, q.iface)),
                    Ends(cfg.net, Scanned(cfg, e, |d.stack| - 1)))
    ensures TableIs(cfg, Push(cfg, d), map[], Ends(cfg.net, Scanned(cfg, Push(cfg, d), |d.stack|)))
  {
    hide Finished, Passed, Scanned, Ends, TableIs, Below, Linked;
    var e, p, top := Push(cfg, d), TopPort(d), |d.stack| - 1;
    ScannedPush(cfg, d);
    SameTable(cfg, d, e, t, Ends(cfg.net, Scanned(cfg, d, top)));
    RecordCable(cfg, e, t, Ends(cfg.net, Scanned(cfg, d, top)), p);
    EndsUnion(cfg.net, Scanned(cfg, d, top), {p});
    EndsOne(cfg.net, p);
    NewTable(cfg, e);
  }

  lemma NewTable(cfg: Config, d: Search)
    requires cfg.net.Valid()
    ensures TableIs(cfg, d, map[], Ends(cfg.net, {}))
  {
  }

  lemma PushRest(cfg: Config, s: State, r: State, v: View)
    requires DiscoveryInv.Inv(cfg, s, v) && v.token.Answering? && cfg.net.wire[TopPort(v.d)].board !in v.d.pos
    requires Shape(cfg, r) && OnlyBoard(s, r, Top(v.d).board)
    requires r.nodes[Top(v.d).board].pc == WaitEnd(Top(v.d).iface, s.nodes[Top(v.d).board].next + 1)
    requires r.nodes[Top(v.d).board].id == s.nodes[Top(v.d).board].id
    requires r.nodes[Top(v.d).board].up == s.nodes[Top(v.d).board].up
    ensures Ancestors(cfg, r, Push(cfg, v.d)) && Retired(cfg, r, Push(cfg, v.d))
  {
    hide Finished, Passed, Tables, Idlers, Only, Linked, Numbering, Tracked;
    var d, e, top := v.d, Push(cfg, v.d), |v.d.stack| - 1;
    forall j | 0 <= j < |e.stack| - 1 ensures Ancestor(cfg, r, e, j) {
      if j < top {
        assert Ancestor(cfg, s, d, j);
        assert d.pos[d.stack[j].board] < d.pos[d.stack[top].board];
      }
    }
    assert d.stack[top].board !in d.last;
  }

  lemma NamedStep(cfg: Config, s: State, v: View, p: Port)
    requires DiscoveryInv.Inv(cfg, s, v) && v.token.Naming? && Enabled(cfg, s, Deliver(p))
    ensures DiscoveryInv.Inv(cfg, Next(cfg, s, Deliver(p)), View(v.d, Starting))
  {
    hide Numbering, Stacked, Finished, Passed, Ancestors, Retired, Scanned, Ends, TableIs, Below, Only, Quiet,
         Tracked, Tables;
    var d, b := v.d, Top(v.d).board;
    var from, to := Id(cfg, d, d.stack[|d.stack| - 2].board), Id(cfg, d, b);
    var r := Next(cfg, s, Deliver(p));
    DeliverHead(cfg, s, Port(b, d.up[b]), [SetId(from, to), Start(from, to)], p);
    DeliverRest(cfg, s, p, [SetId(from, to), Start(from, to)]);
    AboveOthers(cfg, d);
    KeepRetired(cfg, s, r, d, b);
    KeepAncestors(cfg, s, r, d, b);
    KeepTables(cfg, s, r, v, b);
    SameTables(cfg, r, v, View(d, Starting));
    assert Idlers(cfg, r, View(d, Starting));
  }

  lemma StartedStep(cfg: Config, s: State, v: View, p: Port)
    requires DiscoveryInv.Inv(cfg, s, v) && v.token.Starting? && Enabled(cfg, s, Deliver(p))
    ensures DiscoveryInv.Inv(cfg, Next(cfg, s, Deliver(p)), View(v.d, Scanning))
  {
    hide Numbering, Stacked, Finished, Passed, Ancestors, Retired, Scanned, Ends, TableIs, Below, Only, Quiet,
         Tracked, Tables;
    var d, b := v.d, Top(v.d).board;
    var from, to := Id(cfg, d, d.stack[|d.stack| - 2].board), Id(cfg, d, b);
    var r := Next(cfg, s, Deliver(p));
    DeliverHead(cfg, s, Port(b, d.up[b]), [Start(from, to)], p);
    DeliverRest(cfg, s, p, [Start(from, to)]);
    AboveOthers(cfg, d);
    KeepRetired(cfg, s, r, d, b);
    KeepAncestors(cfg, s, r, d, b);
    KeepTables(cfg, s, r, v, b);
    SameTables(cfg, r, v, View(d, Scanning));
    assert Idlers(cfg, r, View(d, Scanning));
  }

  // ----- a child returns to its parent -----

  /** The parent of a returning board waits, and only it can receive. */
  lemma ReturnTo(cfg: Config, s: State, v: View, p: Port)
    requires DiscoveryInv.Inv(cfg, s, v) && v.token.Returning? && Enabled(cfg, s, Deliver(p))
    ensures var d, n, msgs := v.d, |v.d.stack| - 1, Messages(v.token.ls) + [EndTopology(s.nodes[Top(v.d).board].next)];
            && p == Port(d.stack[n - 1].board, d.stack[n - 1].iface) && Ancestor(cfg, s, d, n - 1)
            && s.chan[p][0] == msgs[0] && Only(cfg, s, p, msgs)
            && p.board != Top(d).board && p.board !in d.last
            && (forall j :: 0 <= j < n - 1 ==> d.stack[j].board != p.board)
  {
    hide Numbering, Tracked, Finished, Passed, Retired, Scanned, Ends, TableIs, Below, Only, Quiet, Tables, Idlers,
         Linked, Stacked;
    var d, n := v.d, |v.d.stack| - 1;
    var below := d.stack[n - 1];
    DeliverHead(cfg, s, Port(below.board, below.iface),
        Messages(v.token.ls) + [EndTopology(s.nodes[Top(d).board].next)], p);
    assert Ancestor(cfg, s, d, n - 1);
    BelowTop(cfg, d);
  }

  /** The board below the top is none of the others on the stack, and unfinished. */
  lemma BelowTop(cfg: Config, d: Search)
    requires DepthFirst.Inv(cfg, d) && |d.stack| > 1
    ensures var n := |d.stack| - 1; var b := d.stack[n - 1].board;
            b != d.stack[n].board && b !in d.last && forall j :: 0 <= j < n - 1 ==> d.stack[j].board != b
  {
    hide Numbering, Finished, Passed, Linked, Tracked;
    var n := |d.stack| - 1;
    assert d.pos[d.stack[n - 1].board] < d.pos[d.stack[n].board];
    forall j | 0 <= j < n - 1 ensures d.stack[j].board != d.stack[n - 1].board {
      assert d.pos[d.stack[j].board] < d.pos[d.stack[n - 1].board];
    }
  }

  lemma ReturnLink(cfg: Config, s: State, v: View, p: Port)
    requires DiscoveryInv.Inv(cfg, s, v) && v.token.Returning? && v.token.ls != [] && Enabled(cfg, s, Deliver(p))
    ensures DiscoveryInv.Inv(cfg, Next(cfg, s, Deliver(p)), View(v.d, Returning(v.token.ls[1..])))
  {
    hide Numbering, Stacked, Finished, Passed, Ancestors, Retired, Scanned, Ends, TableIs, Below, Only, Quiet,
         Tracked, Tables;
    var d, ls, n := v.d, v.token.ls, |v.d.stack| - 1;
    var r := Next(cfg, s, Deliver(p));
    var w := View(d, Returning(ls[1..]));
    var end := [EndTopology(s.nodes[Top(d).board].next)];
    ReturnTo(cfg, s, v, p);
    assert (Messages(ls) + end)[0] == Topology(ls[0]);
    assert (Messages(ls) + end)[1..] == Messages(ls[1..]) + end;
    DeliverRest(cfg, s, p, Messages(ls) + end);
    KeepRetired(cfg, s, r, d, p.board);
    KeepAncestors(cfg, s, r, d, p.board);
    KeepTables(cfg, s, r, v, p.board);
    assert Tables(cfg, r, w) by {
      ReturningTables(cfg, r, v, w);
    }
    assert Idlers(cfg, r, w);
  }

  lemma ReturningTables(cfg: Config, s: State, v: View, w: View)
    requires cfg.net.Valid() && Shape(cfg, s) && Tables(cfg, s, v) && v.d == w.d && v.token.Returning?
             && w.token.Returning?
    ensures Tables(cfg, s, w)
  {
    forall j | 0 <= j < |w.d.stack| - 2 ensures TableAt(cfg, s, w.d, j) {
      assert TableAt(cfg, s, v.d, j);
    }
  }

  lemma ReturnEnd(cfg: Config, s: State, v: View, p: Port)
    requires DiscoveryInv.Inv(cfg, s, v) && v.token == Returning([]) && Enabled(cfg, s, Deliver(p))
    ensures DiscoveryInv.Inv(cfg, Next(cfg, s, Deliver(p)), View(Pop(v.d), Scanning))
  {
    hide Numbering, Stacked, Finished, Passed, Ancestors, Retired, Scanned, Ends, TableIs, Below, Only, Quiet,
         Tracked, Tables;
    var d := v.d;
    var r := Next(cfg, s, Deliver(p));
    ReturnTo(cfg, s, v, p);
    ReturnQuiet(cfg, s, v, p);
    PopInv(cfg, d);
    PopTables(cfg, s, r, v);
    PopRest(cfg, s, r, v);
    assert Idlers(cfg, r, View(Pop(d), Scanning));
  }

  lemma ReturnQuiet(cfg: Config, s: State, v: View, p: Port)
    requires DiscoveryInv.Inv(cfg, s, v) && v.token == Returning([]) && Enabled(cfg, s, Deliver(p))
    ensures Quiet(cfg, Next(cfg, s, Deliver(p))) && s.chan[p][0] == EndTopology(s.nodes[Top(v.d).board].next)
  {
    hide Numbering, Stacked, Finished, Passed, Ancestors, Retired, Scanned, Ends, TableIs, Below, Only, Quiet,
         Tracked, Tables, Idlers;
    var end := EndTopology(s.nodes[Top(v.d).board].next);
    ReturnTo(cfg, s, v, p);
    assert Messages([]) + [end] == [end];
    DeliverRest(cfg, s, p, [end]);
  }

  lemma PopTables(cfg: Config, s: State, r: State, v: View)
    requires DiscoveryInv.Inv(cfg, s, v) && v.token == Returning([])
    requires Shape(cfg, r) && OnlyBoard(s, r, v.d.stack[|v.d.stack| - 2].board)
    requires v.d.stack[|v.d.stack| - 2].board < |s.nodes|
    requires r.nodes[v.d.stack[|v.d.stack| - 2].board].topo == s.nodes[v.d.stack[|v.d.stack| - 2].board].topo
    ensures Tables(cfg, r, View(Pop(v.d), Scanning))
  {
    hide Numbering, Finished, Passed, Ancestors, Retired, Scanned, Ends, TableIs, Below, Only, Linked, Idlers;
    var d, e, n := v.d, Pop(v.d), |v.d.stack| - 1;
    forall j | 0 <= j < |e.stack| ensures TableAt(cfg, r, e, j) {
      if j < n - 1 {
        assert d.pos[d.stack[j].board] < d.pos[d.stack[n - 1].board];
        assert d.pos[d.stack[j + 1].board] < d.pos[d.stack[n].board];
        assert TableAt(cfg, s, d, j);
        ScannedKept(cfg, d, e, j);
        SameTable(cfg, d, e, s.nodes[d.stack[j].board].topo, Ends(cfg.net, Scanned(cfg, d, j)));
      } else {
        SameTable(cfg, d, e, s.nodes[d.stack[j].board].topo, Ends(cfg.net, Scanned(cfg, e, n - 1)));
      }
    }
  }

  lemma PopRest(cfg: Config, s: State, r: State, v: View)
    requires DiscoveryInv.Inv(cfg, s, v) && v.token == Returning([])
    requires Shape(cfg, r) && OnlyBoard(s, r, v.d.stack[|v.d.stack| - 2].board)
    ensures Ancestors(cfg, r, Pop(v.d)) && Retired(cfg, r, Pop(v.d))
  {
    hide Numbering, Finished, Passed, Tables, Idlers, Only, Linked, Tracked, TableIs, Scanned, Ends, Retired;
    var d, e, n := v.d, Pop(v.d), |v.d.stack| - 1;
    forall j | 0 <= j < |e.stack| - 1 ensures Ancestor(cfg, r, e, j) {
      assert Ancestor(cfg, s, d, j);
      assert d.pos[d.stack[j].board] < d.pos[d.stack[n - 1].board];
    }
    PopRetired(cfg, s, r, v);
  }

  lemma PopRetired(cfg: Config, s: State, r: State, v: View)
    requires DiscoveryInv.Inv(cfg, s, v) && v.token == Returning([])
    requires Shape(cfg, r) && OnlyBoard(s, r, v.d.stack[|v.d.stack| - 2].board)
    ensures Retired(cfg, r, Pop(v.d))
  {
    hide Numbering, Finished, Passed, Tables, Idlers, Only, Linked, Tracked, TableIs, Scanned, Ends, Ancestors, Stacked;
    BelowTop(cfg, v.d);
  }
}
