/** Whole runs of discovery: safety in every reachable state, no blocking, termination. */
module DiscoveryRuns {
  import opened Networks
  import opened DepthFirst
  import opened SearchTree
  import opened Renumbering
  import opened TopologyTables
  import opened Discovery
  import opened DiscoveryInv
  import opened DiscoverySteps
  import opened DiscoveryRoutes
  import opened DiscoveryTruth

  /** The renumbering every run has to arrive at. */
  function Expected(cfg: Config): Numbers
    requires cfg.net.Valid()
  {
    Visit(cfg.net, cfg.master, 0, Numbers(map[cfg.master := 0], 0))
  }

  /** All that holds of a reachable state, seen through v. */
  ghost predicate Good(cfg: Config, s: State, v: View) {
    && DiscoveryInv.Inv(cfg, s, v) && Routes(cfg, s, v) && Truth(cfg, s, v) && Tree(cfg, v.d)
    && Rest(cfg, v.d) == Expected(cfg)
  }

  lemma InitGood(cfg: Config, s: State)
    requires cfg.Valid() && Init(cfg, s)
    ensures Good(cfg, s, View(Begin(cfg), Scanning))
  {
    hide DepthFirst.Inv, Routes, Tree, Tables, Ancestors;
    InitInv(cfg, s);
    InitRoutes(cfg, s);
    BeginTree(cfg);
    BeginVisit(cfg);
    EmptyTruthful(cfg, Begin(cfg));
  }

  // ----- what is left to do -----

  function StackWork(stack: seq<Frame>, ifaces: nat): int {
    if stack == [] then 0
    else StackWork(stack[..|stack| - 1], ifaces) + ifaces + 1 - stack[|stack| - 1].iface
  }

  function Work(cfg: Config, d: Search): int {
    (cfg.net.boards - |d.order|) * (cfg.net.ifaces + 2) + StackWork(d.stack, cfg.net.ifaces)
  }

  function Rank(t: Token): nat {
    match t
    case Naming => 5
    case Starting => 4
    case Scanning => 3
    case Asking => 2
    case Returning(_) => 2
    case Answering => 1
    case Halted => 0
  }

  function Unread(t: Token): nat {
    if t.Returning? then |t.ls| else 0
  }

  function Unsent(nodes: seq<Node>): nat {
    if nodes == [] then 0 else Unsent(nodes[..|nodes| - 1]) + |nodes[|nodes| - 1].out|
  }

  /** The lexicographic order on unscanned interfaces, stage of the exchange, unread and unsent messages. */
  ghost predicate Smaller(cfg: Config, r: State, w: View, s: State, v: View) {
    || Work(cfg, w.d) < Work(cfg, v.d)
    || (w.d == v.d && Rank(w.token) < Rank(v.token))
    || (w.d == v.d && Rank(w.token) == Rank(v.token) && Unread(w.token) < Unread(v.token))
    || (w == v && Unsent(r.nodes) < Unsent(s.nodes))
  }

  lemma {:induction false} StackWorkBound(stack: seq<Frame>, ifaces: nat)
    requires forall j :: 0 <= j < |stack| ==> stack[j].iface <= ifaces
    ensures StackWork(stack, ifaces) >= 0
  {
    if stack != [] {
      StackWorkBound(stack[..|stack| - 1], ifaces);
    }
  }

  lemma WorkBound(cfg: Config, d: Search)
    requires DepthFirst.Inv(cfg, d)
    ensures Work(cfg, d) >= 0
  {
    hide Numbering, Tracked, Finished, Passed, Linked;
    OrderBound(cfg, d);
    StackWorkBound(d.stack, cfg.net.ifaces);
    assert (cfg.net.boards - |d.order|) * (cfg.net.ifaces + 2) >= 0;
  }

  lemma SkipWork(cfg: Config, d: Search)
    requires |d.stack| > 0
    ensures Work(cfg, Skip(d)) < Work(cfg, d)
  {
    assert Skip(d).stack[..|d.stack| - 1] == d.stack[..|d.stack| - 1];
  }

  lemma PushWork(cfg: Config, d: Search)
    requires |d.stack| > 0 && TopPort(d) in cfg.net.wire
    ensures Work(cfg, Push(cfg, d)) < Work(cfg, d)
  {
    assert Push(cfg, d).stack[..|d.stack|] == d.stack;
    var left, each := cfg.net.boards - |d.order|, cfg.net.ifaces + 2;
    assert (left - 1) * each == left * each - each;
  }

  lemma PopWork(cfg: Config, d: Search)
    requires |d.stack| > 1 && |d.order| > 0 && Top(d).iface <= cfg.net.ifaces
    ensures Work(cfg, Pop(d)) < Work(cfg, d)
  {
    var n := |d.stack| - 1;
    var below := d.stack[..n];
    assert Pop(d).stack[..n - 1] == below[..n - 1];
    assert StackWork(below, cfg.net.ifaces) ==
           StackWork(below[..n - 1], cfg.net.ifaces) + cfg.net.ifaces + 1 - d.stack[n - 1].iface;
  }

  lemma {:induction false} SendsLess(nodes: seq<Node>, b: nat, n: Node)
    requires b < |nodes| && |n.out| < |nodes[b].out|
    ensures Unsent(nodes[b := n]) < Unsent(nodes)
  {
    var k := |nodes| - 1;
    if b == k {
      assert nodes[b := n][..k] == nodes[..k];
    } else {
      SendsLess(nodes[..k], b, n);
      assert nodes[b := n][..k] == nodes[..k][b := n];
    }
  }

  // ----- one step -----

  /** Only the top board can be at the head of its scan. */
  lemma OnlyTopScans(cfg: Config, s: State, v: View, b: nat)
    requires DiscoveryInv.Inv(cfg, s, v) && b < |s.nodes| && s.nodes[b].pc.Scan?
    ensures b == Top(v.d).board && v.token.Scanning?
    ensures s.nodes[b].pc.i == Top(v.d).iface <= cfg.net.ifaces
  {
    hide Numbering, Finished, Passed, Tables, Only, Quiet, Linked;
    var d := v.d;
    forall j | 0 <= j < |d.stack| - 1 ensures d.stack[j].board != b {
      assert Ancestor(cfg, s, d, j);
    }
    assert OnStack(d, b);
  }

  lemma PassNumbered(cfg: Config, s: State, v: View)
    requires DiscoveryInv.Inv(cfg, s, v) && v.token.Scanning? && MayPass(cfg, s, v.d)
    ensures TopPort(v.d) in cfg.net.wire ==> cfg.net.wire[TopPort(v.d)].board in v.d.pos
  {
    hide Numbering, Stacked, Tracked, Finished, Passed, Tables;
    if TopPort(v.d) in cfg.net.wire {
      KnownFarEnd(cfg, s, v);
    }
  }

  lemma LocalStep(cfg: Config, s: State, v: View, b: nat) returns (w: View)
    requires cfg.Valid() && Good(cfg, s, v) && Enabled(cfg, s, Local(b))
    ensures Good(cfg, Next(cfg, s, Local(b)), w) && Smaller(cfg, Next(cfg, s, Local(b)), w, s, v)
  {
    hide Numbering, Stacked, Tracked, Finished, Passed, Ancestors, Retired, Idlers, Front, Routes, Truth, Tree,
         Tables, Rest, Only, Quiet, Work;
    var r := Next(cfg, s, Local(b));
    OnlyTopScans(cfg, s, v, b);
    if MayPass(cfg, s, v.d) {
      w := View(Skip(v.d), Scanning);
      ScanSkip(cfg, s, v);
      PassNumbered(cfg, s, v);
      SkipWork(cfg, v.d);
      SkipVisit(cfg, v.d);
      SkipTree(cfg, v.d);
    } else if Top(v.d).iface < cfg.net.ifaces {
      w := View(v.d, Asking);
      ScanAsk(cfg, s, v);
    } else if b == cfg.master {
      w := View(v.d, Halted);
      ScanHalt(cfg, s, v);
    } else {
      w := View(v.d, Returning(Stream(s.nodes[b].topo, cfg.rows, cfg.net.ifaces, 0, 0)));
      ScanReturn(cfg, s, v);
    }
    KeepRoutes(cfg, s, r, v, w);
    LocalTruth(cfg, s, v, w);
  }

  lemma LocalTruth(cfg: Config, s: State, v: View, w: View)
    requires DiscoveryInv.Inv(cfg, s, v) && Truth(cfg, s, v) && v.token.Scanning? && w.d.pos == v.d.pos
    requires w.token.Returning? ==>
               w.token.ls == Stream(s.nodes[Top(v.d).board].topo, cfg.rows, cfg.net.ifaces, 0, 0) && w.d == v.d
    ensures Truth(cfg, Next(cfg, s, Local(Top(v.d).board)), w)
  {
    hide Numbering, Stacked, Tracked, Finished, Passed, Ancestors, Retired, Idlers, Tables, Truthful, TrueLink;
    var b := Top(v.d).board;
    if w.token.Returning? {
      StreamTrue(cfg, v.d, s.nodes[b].topo, 0, 0);
    }
    KeepTruth(cfg, s, Next(cfg, s, Local(b)), v, w, b);
  }

  lemma SendStep(cfg: Config, s: State, v: View, b: nat)
    requires Good(cfg, s, v) && Enabled(cfg, s, Transmit(b))
    ensures Good(cfg, Next(cfg, s, Transmit(b)), v) && Smaller(cfg, Next(cfg, s, Transmit(b)), v, s, v)
  {
    hide Numbering, Stacked, Tracked, Finished, Passed, Ancestors, Retired, Idlers, Front, Truth, Tree, Tables, Rest,
         Only, Quiet, Work;
    var r := Next(cfg, s, Transmit(b));
    TransmitStep(cfg, s, v, b);
    SendsLess(s.nodes, b, r.nodes[b]);
    KeepRoutes(cfg, s, r, v, v);
    SendTruth(cfg, s, v, b);
  }

  lemma SendTruth(cfg: Config, s: State, v: View, b: nat)
    requires cfg.net.Valid() && Shape(cfg, s) && Truth(cfg, s, v) && Enabled(cfg, s, Transmit(b))
    ensures Truth(cfg, Next(cfg, s, Transmit(b)), v)
  {
    hide Truthful, TrueLink;
    KeepTruth(cfg, s, Next(cfg, s, Transmit(b)), v, v, b);
  }

  /** A received message that records no cable and numbers no board. */
  lemma DeliverTruth(cfg: Config, s: State, v: View, w: View, p: Port)
    requires cfg.net.Valid() && Shape(cfg, s) && Truth(cfg, s, v) && Enabled(cfg, s, Deliver(p)) && p in cfg.net.wire
    requires w.d.pos == v.d.pos && !w.token.Returning?
    requires p.board in v.d.pos ==> Next(cfg, s, Deliver(p)).nodes[p.board].topo == s.nodes[p.board].topo
    ensures Truth(cfg, Next(cfg, s, Deliver(p)), w)
  {
    hide Truthful, TrueLink;
    KeepTruth(cfg, s, Next(cfg, s, Deliver(p)), v, w, p.board);
  }

  lemma AskedTruth(cfg: Config, s: State, v: View, p: Port)
    requires DiscoveryInv.Inv(cfg, s, v) && Truth(cfg, s, v) && v.token.Asking? && Enabled(cfg, s, Deliver(p))
    ensures Truth(cfg, Next(cfg, s, Deliver(p)), View(v.d, Answering))
  {
    hide Numbering, Stacked, Tracked, Finished, Passed, Ancestors, Retired, Idlers, Tables, Only, Truth;
    DeliverHead(cfg, s, cfg.net.wire[TopPort(v.d)], [ReqId(s.nodes[Top(v.d).board].id)], p);
    AskedBoard(cfg, s, v);
    DeliverTruth(cfg, s, v, View(v.d, Answering), p);
  }

  lemma AskedRoutes(cfg: Config, s: State, v: View, p: Port)
    requires DiscoveryInv.Inv(cfg, s, v) && Routes(cfg, s, v) && v.token.Asking? && Enabled(cfg, s, Deliver(p))
    ensures Routes(cfg, Next(cfg, s, Deliver(p)), View(v.d, Answering))
  {
    hide Numbering, Stacked, Tracked, Finished, Passed, Ancestors, Retired, Idlers, Tables, Only, Routes;
    var q := cfg.net.wire[TopPort(v.d)];
    DeliverHead(cfg, s, q, [ReqId(s.nodes[Top(v.d).board].id)], p);
    AskedBoard(cfg, s, v);
    KeepRoutes(cfg, s, Next(cfg, s, Deliver(p)), v, View(v.d, Answering));
  }

  lemma AnswerRoutes(cfg: Config, s: State, v: View, p: Port)
    requires DiscoveryInv.Inv(cfg, s, v) && Routes(cfg, s, v) && v.token.Answering? && Enabled(cfg, s, Deliver(p))
    ensures if cfg.net.wire[TopPort(v.d)].board in v.d.pos
            then Routes(cfg, Next(cfg, s, Deliver(p)), View(Skip(v.d), Scanning))
            else Routes(cfg, Next(cfg, s, Deliver(p)), View(Push(cfg, v.d), Naming))
  {
    hide Numbering, Stacked, Tracked, Finished, Passed, Ancestors, Retired, Idlers, Routes, Tables, Only, Quiet;
    var d, n, q := v.d, s.nodes[Top(v.d).board], cfg.net.wire[TopPort(v.d)];
    var r := Next(cfg, s, Deliver(p));
    DeliverHead(cfg, s, TopPort(d), [Answer(cfg, d, q, n.id)], p);
    if q.board in d.pos {
      AboveOthers(cfg, d);
      KeepRoutes(cfg, s, r, v, View(Skip(d), Scanning));
    } else {
      PushRoutes(cfg, s, r, v);
    }
  }

  lemma AnswerStep(cfg: Config, s: State, v: View, p: Port) returns (w: View)
    requires cfg.Valid() && Good(cfg, s, v) && v.token.Answering? && Enabled(cfg, s, Deliver(p))
    ensures Good(cfg, Next(cfg, s, Deliver(p)), w) && Smaller(cfg, Next(cfg, s, Deliver(p)), w, s, v)
  {
    hide Numbering, Stacked, Tracked, Finished, Passed, Ancestors, Retired, Idlers, Routes, Truth, Tree, Tables,
         Rest, Only, Quiet, Work;
    var d, q := v.d, cfg.net.wire[TopPort(v.d)];
    AnswerRoutes(cfg, s, v, p);
    if q.board in d.pos {
      w := View(Skip(d), Scanning);
      AnsweredOld(cfg, s, v, p);
      AnswerTruth(cfg, s, v, p);
      SkipWork(cfg, d);
      SkipVisit(cfg, d);
      SkipTree(cfg, d);
    } else {
      w := View(Push(cfg, d), Naming);
      AnsweredNew(cfg, s, v, p);
      PushTruth(cfg, s, v, p);
      PushWork(cfg, d);
      PushVisit(cfg, d);
      PushTree(cfg, d);
    }
  }

  lemma NameStep(cfg: Config, s: State, v: View, p: Port) returns (w: View)
    requires Good(cfg, s, v) && (v.token.Naming? || v.token.Starting?) && Enabled(cfg, s, Deliver(p))
    ensures Good(cfg, Next(cfg, s, Deliver(p)), w) && Smaller(cfg, Next(cfg, s, Deliver(p)), w, s, v)
  {
    hide Numbering, Stacked, Tracked, Finished, Passed, Ancestors, Retired, Idlers, Routes, Truth, Tree, Tables,
         Rest, Only, Quiet, Work;
    if v.token.Naming? {
      w := View(v.d, Starting);
      NamedStep(cfg, s, v, p);
      NamedRoutes(cfg, s, v, p);
      DeliverTruth(cfg, s, v, w, p);
    } else {
      w := View(v.d, Scanning);
      StartedStep(cfg, s, v, p);
      StartRoutes(cfg, s, v, p);
      DeliverTruth(cfg, s, v, w, p);
    }
  }

  lemma NamedRoutes(cfg: Config, s: State, v: View, p: Port)
    requires DiscoveryInv.Inv(cfg, s, v) && Routes(cfg, s, v) && v.token.Naming? && Enabled(cfg, s, Deliver(p))
    ensures Routes(cfg, Next(cfg, s, Deliver(p)), View(v.d, Starting))
  {
    hide Numbering, Stacked, Tracked, Finished, Passed, Ancestors, Retired, Idlers, Tables, Only, Routes;
    var d, b := v.d, Top(v.d).board;
    var from, to := Id(cfg, d, d.stack[|d.stack| - 2].board), Id(cfg, d, b);
    DeliverHead(cfg, s, Port(b, d.up[b]), [SetId(from, to), Start(from, to)], p);
    KeepRoutes(cfg, s, Next(cfg, s, Deliver(p)), v, View(d, Starting));
  }

  lemma ReturnEndRoutes(cfg: Config, s: State, v: View, p: Port)
    requires DiscoveryInv.Inv(cfg, s, v) && Routes(cfg, s, v) && v.token == Returning([]) && Enabled(cfg, s, Deliver(p))
    ensures Routes(cfg, Next(cfg, s, Deliver(p)), View(Pop(v.d), Scanning))
  {
    hide Numbering, Stacked, Tracked, Finished, Passed, Ancestors, Retired, Idlers, Tables, Only, Quiet, Routes,
         Knowledge.TableIs;
    ReturnTo(cfg, s, v, p);
    ReturnQuiet(cfg, s, v, p);
    PopRoutes(cfg, s, Next(cfg, s, Deliver(p)), v);
  }

  lemma ReturnEndTruth(cfg: Config, s: State, v: View, p: Port)
    requires DiscoveryInv.Inv(cfg, s, v) && Truth(cfg, s, v) && v.token == Returning([]) && Enabled(cfg, s, Deliver(p))
    ensures Truth(cfg, Next(cfg, s, Deliver(p)), View(Pop(v.d), Scanning))
  {
    hide Numbering, Stacked, Tracked, Finished, Passed, Ancestors, Retired, Idlers, Tables, Only, Quiet, Truth,
         Knowledge.TableIs;
    ReturnTo(cfg, s, v, p);
    var end := [EndTopology(s.nodes[Top(v.d).board].next)];
    assert (Messages([]) + end)[0] == end[0];
    DeliverTruth(cfg, s, v, View(Pop(v.d), Scanning), p);
  }

  lemma ReturnLinkRoutes(cfg: Config, s: State, v: View, p: Port)
    requires DiscoveryInv.Inv(cfg, s, v) && Routes(cfg, s, v) && v.token.Returning? && Enabled(cfg, s, Deliver(p))
    requires v.token.ls != []
    ensures Routes(cfg, Next(cfg, s, Deliver(p)), View(v.d, Returning(v.token.ls[1..])))
  {
    hide Numbering, Stacked, Tracked, Finished, Passed, Ancestors, Retired, Idlers, Tables, Only, Quiet, Routes,
         Knowledge.TableIs;
    var ls := v.token.ls;
    ReturnTo(cfg, s, v, p);
    assert (Messages(ls) + [EndTopology(s.nodes[Top(v.d).board].next)])[0] == Topology(ls[0]);
    KeepRoutes(cfg, s, Next(cfg, s, Deliver(p)), v, View(v.d, Returning(ls[1..])));
  }

  lemma ReturnStep(cfg: Config, s: State, v: View, p: Port) returns (w: View)
    requires cfg.Valid() && Good(cfg, s, v) && v.token.Returning? && Enabled(cfg, s, Deliver(p))
    ensures Good(cfg, Next(cfg, s, Deliver(p)), w) && Smaller(cfg, Next(cfg, s, Deliver(p)), w, s, v)
  {
    hide Numbering, Stacked, Tracked, Finished, Passed, Ancestors, Retired, Idlers, Routes, Truth, Tree, Tables,
         Rest, Only, Quiet, Work, Knowledge.TableIs;
    if v.token.ls == [] {
      w := View(Pop(v.d), Scanning);
      ReturnEndRoutes(cfg, s, v, p);
      ReturnEndTruth(cfg, s, v, p);
      ReturnEnd(cfg, s, v, p);
      PopWork(cfg, v.d);
      PopVisit(cfg, v.d);
      PopTree(cfg, v.d);
    } else {
      w := View(v.d, Returning(v.token.ls[1..]));
      ReturnLinkRoutes(cfg, s, v, p);
      ReturnTruth(cfg, s, v, p);
      ReturnLink(cfg, s, v, p);
    }
  }

  /** Every step keeps all that is known of reachable states, and brings the end closer. */
  lemma Step(cfg: Config, s: State, v: View, a: Action) returns (w: View)
    requires cfg.Valid() && Good(cfg, s, v) && Enabled(cfg, s, a)
    ensures Good(cfg, Next(cfg, s, a), w) && Smaller(cfg, Next(cfg, s, a), w, s, v)
  {
    hide Numbering, Stacked, Tracked, Finished, Passed, Ancestors, Retired, Idlers, Routes, Truth, Tree, Tables,
         Rest, Only, Work;
    match a
    case Transmit(b) =>
      w := v;
      SendStep(cfg, s, v, b);
    case Local(b) =>
      w := LocalStep(cfg, s, v, b);
    case Deliver(p) =>
      match v.token
      case Asking =>
        w := View(v.d, Answering);
        AskedStep(cfg, s, v, p);
        AskedRoutes(cfg, s, v, p);
        AskedTruth(cfg, s, v, p);
      case Answering =>
        w := AnswerStep(cfg, s, v, p);
      case Returning(_) =>
        w := ReturnStep(cfg, s, v, p);
      case _ =>
        w := NameStep(cfg, s, v, p);
  }
}
