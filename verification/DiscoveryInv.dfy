/** The invariant of the discovery protocol: at any time one message stream, on one cable, carries
    the search forward, and every board's state is a function of the search state. */
module DiscoveryInv {
  import opened Networks
  import opened DepthFirst
  import opened TopologyTables
  import opened Knowledge
  import opened Discovery

  /** What the board on top of the stack is engaged in. */
  datatype Token =
    | Scanning
    | Asking                       // REQ_ID is on its way
    | Answering                    // the answer is on its way
    | Naming                       // SETID and START are on their way
    | Starting                     // START is on its way
    | Returning(ls: seq<Link>)     // ls and END are on their way to the parent
    | Halted

  datatype View = View(d: Search, token: Token)

  ghost predicate Quiet(cfg: Config, s: State)
    requires Shape(cfg, s)
  {
    && (forall p :: p in s.chan ==> s.chan[p] == [])
    && (forall b :: 0 <= b < |s.nodes| ==> s.nodes[b].out == [])
  }

  /** The messages under way are exactly `msgs`, all towards port q. */
  ghost predicate Only(cfg: Config, s: State, q: Port, msgs: seq<Msg>)
    requires Shape(cfg, s) && cfg.net.Valid()
  {
    && q in cfg.net.wire
    && s.chan[q] + s.nodes[cfg.net.wire[q].board].out == msgs
    && (forall p :: p in s.chan && p != q ==> s.chan[p] == [])
    && (forall b :: 0 <= b < |s.nodes| && s.nodes[b].out != [] ==> Port(b, s.nodes[b].outIf) == cfg.net.wire[q])
  }

  /** The neighbour that has answered REQ_ID but has no number yet. */
  ghost predicate Newcomer(cfg: Config, v: View, b: nat)
    requires |v.d.stack| > 0
  {
    v.token.Answering? && TopPort(v.d) in cfg.net.wire && b == cfg.net.wire[TopPort(v.d)].board
  }

  ghost predicate Idlers(cfg: Config, s: State, v: View)
    requires Shape(cfg, s) && |v.d.stack| > 0
  {
    forall b :: 0 <= b < |s.nodes| && b !in v.d.pos ==>
      if Newcomer(cfg, v, b) then s.nodes[b].pc.WaitSetId? && s.nodes[b].topo == map[] else s.nodes[b].pc.Idle?
  }

  ghost predicate Retired(cfg: Config, s: State, d: Search)
    requires Shape(cfg, s)
  {
    forall b :: b in d.last ==>
      && b in d.pos && b < |s.nodes| && s.nodes[b].pc.Done? && s.nodes[b].id == Id(cfg, d, b)
      && b in d.up && s.nodes[b].up == d.up[b]
  }

  ghost predicate Ancestor(cfg: Config, s: State, d: Search, j: nat)
    requires Shape(cfg, s) && j + 1 < |d.stack|
  {
    var f, c := d.stack[j], d.stack[j + 1].board;
    && f.board < |s.nodes| && f.board in d.pos && c in d.pos
    && s.nodes[f.board].pc == WaitEnd(f.iface, Id(cfg, d, c))
    && s.nodes[f.board].id == Id(cfg, d, f.board)
    && (j > 0 ==> f.board in d.up && s.nodes[f.board].up == d.up[f.board])
  }

  ghost predicate Ancestors(cfg: Config, s: State, d: Search)
    requires Shape(cfg, s)
  {
    forall j {:trigger Ancestor(cfg, s, d, j)} :: 0 <= j < |d.stack| - 1 ==> Ancestor(cfg, s, d, j)
  }

  ghost predicate TableAt(cfg: Config, s: State, d: Search, j: nat)
    requires Shape(cfg, s) && cfg.net.Valid() && j < |d.stack|
  {
    d.stack[j].board < |s.nodes| && TableIs(cfg, d, s.nodes[d.stack[j].board].topo, Ends(cfg.net, Scanned(cfg, d, j)))
  }

  ghost predicate Tables(cfg: Config, s: State, v: View)
    requires Shape(cfg, s) && cfg.net.Valid()
  {
    forall j {:trigger TableAt(cfg, s, v.d, j)} ::
      0 <= j < |v.d.stack| - (if v.token.Returning? then 2 else 0) ==> TableAt(cfg, s, v.d, j)
  }

  /** The top board knows its id, its parent and the last id handed out. */
  ghost predicate Current(cfg: Config, d: Search, n: Node)
    requires |d.stack| > 0
  {
    var b := Top(d).board;
    && b in d.pos && n.id == Id(cfg, d, b) && n.next == cfg.masterId + |d.order| - 1
    && (|d.stack| > 1 ==> b in d.up && n.up == d.up[b])
  }

  ghost predicate Front(cfg: Config, s: State, v: View)
    requires Shape(cfg, s) && cfg.net.Valid() && |v.d.stack| > 0 && Top(v.d).board < |s.nodes|
  {
    var d, f, p := v.d, Top(v.d), TopPort(v.d);
    var n := s.nodes[f.board];
    match v.token
    case Scanning =>
      n.pc == Scan(f.iface) && Current(cfg, d, n) && Quiet(cfg, s)
    case Asking =>
      && n.pc == WaitRsp(f.iface) && Current(cfg, d, n) && p in cfg.net.wire
      && cfg.net.wire[p].board !in d.last && Only(cfg, s, cfg.net.wire[p], [ReqId(n.id)])
    case Answering =>
      && n.pc == WaitRsp(f.iface) && Current(cfg, d, n) && p in cfg.net.wire
      && Only(cfg, s, p, [Answer(cfg, d, cfg.net.wire[p], n.id)])
    case Naming =>
      && f.iface == 0 && n.pc == WaitSetId && |d.stack| > 1
      && f.board in d.up && f.board in d.pos && d.stack[|d.stack| - 2].board in d.pos
      && var from, to := Id(cfg, d, d.stack[|d.stack| - 2].board), Id(cfg, d, f.board);
         to == cfg.masterId + |d.order| - 1
         && Only(cfg, s, Port(f.board, d.up[f.board]), [SetId(from, to), Start(from, to)])
    case Starting =>
      && f.iface == 0 && n.pc == WaitStart && |d.stack| > 1
      && f.board in d.up && f.board in d.pos && d.stack[|d.stack| - 2].board in d.pos
      && var from, to := Id(cfg, d, d.stack[|d.stack| - 2].board), Id(cfg, d, f.board);
         n.id == to == cfg.masterId + |d.order| - 1
         && Only(cfg, s, Port(f.board, d.up[f.board]), [Start(from, to)])
    case Returning(ls) =>
      && f.iface == cfg.net.ifaces && n.pc == Done && Current(cfg, d, n) && |d.stack| > 1 && |d.order| > 0
      && var below := d.stack[|d.stack| - 2];
         below.board < |s.nodes|
         && Only(cfg, s, Port(below.board, below.iface), Messages(ls) + [EndTopology(n.next)])
         && TableIs(cfg, d, Replay(s.nodes[below.board].topo, ls), Ends(cfg.net, Scanned(cfg, Pop(d), |d.stack| - 2)))
    case Halted =>
      f.iface == cfg.net.ifaces && n.pc == Done && Current(cfg, d, n) && |d.stack| == 1 && Quiet(cfg, s)
  }

  /** What the board at port q replies to REQ_ID from the board numbered `asker`. */
  function Answer(cfg: Config, d: Search, q: Port, asker: nat): Msg {
    if q.board in d.pos then RspId(Id(cfg, d, q.board), asker, q.iface) else RspNoId(asker, q.iface)
  }

  ghost predicate Inv(cfg: Config, s: State, v: View) {
    && Shape(cfg, s) && cfg.net.Valid() && DepthFirst.Inv(cfg, v.d) && Top(v.d).board < |s.nodes|
    && Idlers(cfg, s, v) && Retired(cfg, s, v.d) && Ancestors(cfg, s, v.d) && Tables(cfg, s, v)
    && Front(cfg, s, v)
  }

  lemma InitInv(cfg: Config, s: State)
    requires cfg.Valid() && Init(cfg, s)
    ensures Inv(cfg, s, View(Begin(cfg), Scanning))
  {
    BeginInv(cfg);
    assert Scanned(cfg, Begin(cfg), 0) == {};
    assert Ends(cfg.net, {}) == {};
    assert TableAt(cfg, s, Begin(cfg), 0);
  }
}
