/** The discovery protocol: boards that exchange messages over first-in first-out cables. A board
    takes one step at a time: it hands a queued message to a cable, consumes a message, or moves
    its scan along. Boards never share memory, so this covers every interleaving of their code. */
module Discovery {
  import opened Networks
  import opened DepthFirst
  import opened TopologyTables

  datatype Msg =
    | ReqId(src: nat)
    | RspId(src: nat, dst: nat, srcIf: nat)
    | RspNoId(dst: nat, srcIf: nat)
    | SetId(src: nat, dst: nat)
    | Start(src: nat, dst: nat)
    | Topology(link: Link)
    | EndTopology(next: nat)

  /** An entry of the interim routing table: a mask with one bit. A missing entry is mask 0. */
  datatype Hop = Loopback | Via(iface: nat)

  datatype Pc =
    | Idle                          // not started: waits for the first REQ_ID
    | WaitSetId
    | WaitStart
    | Scan(i: nat)                  // head of the loop over the interfaces
    | WaitRsp(i: nat)               // sent REQ_ID over interface i
    | WaitEnd(i: nat, start: nat)   // numbered the board behind interface i, waits for its END
    | Done

  /** `up` is the interface towards the parent and `next` the last id this board has heard of;
      `out` holds the sends, all over interface `outIf`, that the code performs before anything else. */
  datatype Node = Node(pc: Pc, up: nat, id: nat, next: nat, topo: Table, rt: map<nat, Hop>,
                       outIf: nat, out: seq<Msg>)

  /** `chan` holds, for each connected port, the messages on their way to it. */
  datatype State = State(nodes: seq<Node>, chan: map<Port, seq<Msg>>)

  datatype Action = Transmit(board: nat) | Deliver(port: Port) | Local(board: nat)

  /** The ids first..last, all through interface f. */
  function RangeRoutes(first: nat, last: nat, f: nat): (r: map<nat, Hop>)
    ensures forall k :: k in r <==> first <= k <= last
    ensures forall k :: k in r ==> r[k] == Via(f)
    decreases last + 1 - first
  {
    if first > last then map[] else RangeRoutes(first + 1, last, f)[first := Via(f)]
  }

  function Messages(ls: seq<Link>): seq<Msg> {
    seq(|ls|, i requires 0 <= i < |ls| => Topology(ls[i]))
  }

  /** Board b consumes message m, which arrives on interface f. */
  function Consume(cfg: Config, n: Node, f: nat, m: Msg): Node {
    match n.pc
    case Idle =>
      if m.ReqId? then
        Node(WaitSetId, f, 0, n.next, map[], RangeRoutes(cfg.masterId, m.src, f), f, [RspNoId(m.src, f)])
      else n
    case WaitSetId =>
      if m.SetId? then n.(pc := WaitStart, id := m.dst, up := f) else n
    case WaitStart =>
      if m.Start? then n.(pc := Scan(0), next := m.dst, up := f, rt := n.rt[n.id := Loopback]) else n
    case WaitRsp(i) =>
      if m.RspId? then
        n.(pc := Scan(i + 1), topo := Record(n.topo, Link(n.id, m.src, f, m.srcIf)))
      else if m.RspNoId? then
        var id := n.next + 1;
        n.(pc := WaitEnd(i, id), next := id, topo := Record(n.topo, Link(n.id, id, i, m.srcIf)),
           rt := n.rt[id := Via(i)], outIf := i, out := [SetId(n.id, id), Start(n.id, id)])
      else
        n.(pc := Scan(cfg.net.ifaces))
    case WaitEnd(i, start) =>
      if m.ReqId? then n.(outIf := f, out := [RspId(n.id, m.src, f)])
      else if m.Topology? then n.(topo := Record(n.topo, m.link))
      else if m.EndTopology? then n.(pc := Scan(i + 1), next := m.next, rt := n.rt + RangeRoutes(start, m.next, i))
      else n
    case _ => n
  }

  /** Board b at the head of its loop over the interfaces. */
  function ScanOne(cfg: Config, b: nat, n: Node): Node
    requires n.pc.Scan?
  {
    var i := n.pc.i;
    if i >= cfg.net.ifaces then
      if b == cfg.master then n.(pc := Done)
      else n.(pc := Done, outIf := n.up,
              out := Messages(Stream(n.topo, cfg.rows, cfg.net.ifaces, 0, 0)) + [EndTopology(n.next)])
    else if Port(b, i) !in cfg.net.wire || Slot(n.id, i) in n.topo then n.(pc := Scan(i + 1))
    else n.(pc := WaitRsp(i), outIf := i, out := [ReqId(n.id)])
  }

  predicate Shape(cfg: Config, s: State) {
    |s.nodes| == cfg.net.boards && s.chan.Keys == cfg.net.wire.Keys
  }

  predicate Enabled(cfg: Config, s: State, a: Action)
    requires Shape(cfg, s)
  {
    match a
    case Transmit(b) => b < |s.nodes| && s.nodes[b].out != []
    case Deliver(p) =>
      && p in s.chan && s.chan[p] != [] && p.board < |s.nodes| && s.nodes[p.board].out == []
      && !s.nodes[p.board].pc.Scan? && !s.nodes[p.board].pc.Done?
    case Local(b) => b < |s.nodes| && s.nodes[b].out == [] && s.nodes[b].pc.Scan?
  }

  function Next(cfg: Config, s: State, a: Action): (r: State)
    requires Shape(cfg, s) && cfg.net.Valid() && Enabled(cfg, s, a)
    ensures Shape(cfg, r)
  {
    match a
    case Transmit(b) =>
      var n := s.nodes[b];
      var p := Port(b, n.outIf);
      State(s.nodes[b := n.(out := n.out[1..])],
            if p in cfg.net.wire then s.chan[cfg.net.wire[p] := s.chan[cfg.net.wire[p]] + [n.out[0]]] else s.chan)
    case Deliver(p) =>
      State(s.nodes[p.board := Consume(cfg, s.nodes[p.board], p.iface, s.chan[p][0])],
            s.chan[p := s.chan[p][1..]])
    case Local(b) =>
      State(s.nodes[b := ScanOne(cfg, b, s.nodes[b])], s.chan)
  }

  /** The master starts scanning; the other boards wait, whatever earlier runs left in them. */
  predicate Init(cfg: Config, s: State) {
    && Shape(cfg, s) && cfg.master < cfg.net.boards
    && s.nodes[cfg.master] == Node(Scan(0), s.nodes[cfg.master].up, cfg.masterId, cfg.masterId, map[],
                                   map[cfg.masterId := Loopback], s.nodes[cfg.master].outIf, [])
    && (forall b :: 0 <= b < cfg.net.boards && b != cfg.master ==> s.nodes[b].pc.Idle? && s.nodes[b].out == [])
    && (forall p :: p in s.chan ==> s.chan[p] == [])
  }

  /** Every board is done and no message is left. */
  predicate AllDone(cfg: Config, s: State)
    requires Shape(cfg, s)
  {
    && (forall b :: 0 <= b < |s.nodes| ==> s.nodes[b].pc.Done? && s.nodes[b].out == [])
    && (forall p :: p in s.chan ==> s.chan[p] == [])
  }
}
