/** One board as the code has it: a topology matrix, routing registers and a few locals, updated in
    place. Each operation does to this state what the protocol's step does to its node. */
module DiscoveryDevice {
  import opened Networks
  import opened DepthFirst
  import opened TopologyTables
  import opened Discovery

  /** A routing register: empty (mask 0) or a mask with one bit. */
  datatype Register = Empty | To(hop: Hop)

  /** The cells and registers that node n touches when it takes m from interface f exist: its own id
      and the next one index only where the code uses them. */
  predicate Fits(n: Node, rows: nat, ifaces: nat, f: nat, m: Msg) {
    match n.pc
    case Idle => m.ReqId? ==> m.src < rows
    case WaitStart => m.Start? ==> n.id < rows
    case WaitRsp(i) =>
      && (m.RspId? ==> n.id < rows && m.src < rows && f < ifaces && m.srcIf < ifaces)
      && (m.RspNoId? ==> n.id < rows && n.next + 1 < rows && i < ifaces && m.srcIf < ifaces)
    case WaitEnd(i, start) =>
      && (m.Topology? ==> m.link.src < rows && m.link.dst < rows && m.link.srcIf < ifaces && m.link.dstIf < ifaces)
      && (m.EndTopology? ==> m.next < rows)
    case _ => true
  }

  /** The same for a node at the head of its loop over the interfaces. */
  ghost predicate ScanFits(n: Node, rows: nat) {
    n.id < rows && forall k :: k in n.topo ==> n.topo[k] < rows
  }

  class Device {
    const none: nat
    const matrix: array2<nat>
    const regs: array<Register>
    var pc: Pc
    var up: nat
    var id: nat
    var next: nat
    var outIf: nat
    var out: seq<Msg>

    constructor (rows: nat, ifaces: nat, none: nat)
      requires rows <= none
      ensures Valid() && this.none == none && fresh(matrix) && fresh(regs)
      ensures matrix.Length0 == rows && matrix.Length1 == ifaces && regs.Length == rows && pc == Idle && out == []
    {
      this.none := none;
      matrix := new nat[rows, ifaces];
      regs := new Register[rows](_ => Empty);
      pc, up, id, next, outIf, out := Idle, 0, 0, 0, 0, [];
    }

    ghost predicate Valid() {
      matrix.Length0 == regs.Length <= none && (matrix as object) != regs
    }

    ghost function Topo(): (t: Table)
      reads matrix
      ensures forall a: nat, i: nat ::
                Slot(a, i) in t <==> a < matrix.Length0 && i < matrix.Length1 && matrix[a, i] != none
      ensures forall a: nat, i: nat :: Slot(a, i) in t ==> t[Slot(a, i)] == matrix[a, i]
    {
      map a: nat, i: nat | 0 <= a < matrix.Length0 && 0 <= i < matrix.Length1 && matrix[a, i] != none
        :: Slot(a, i) := matrix[a, i]
    }

    ghost function Routes(): (r: map<nat, Hop>)
      reads regs
      ensures forall k: nat :: k in r <==> k < regs.Length && regs[k].To?
      ensures forall k: nat :: k in r ==> r[k] == regs[k].hop
    {
      map k: nat | 0 <= k < regs.Length && regs[k].To? :: regs[k].hop
    }

    /** The state of this board in the protocol. */
    ghost function View(): Node
      reads this, matrix, regs
    {
      Node(pc, up, id, next, Topo(), Routes(), outIf, out)
    }

    method TopologyInit()
      requires Valid()
      modifies matrix
      ensures Topo() == map[]
    {
      for i := 0 to matrix.Length0
        invariant forall a, j :: 0 <= a < i && 0 <= j < matrix.Length1 ==> matrix[a, j] == none
      {
        for j := 0 to matrix.Length1
          invariant forall a, k :: 0 <= a < i && 0 <= k < matrix.Length1 ==> matrix[a, k] == none
          invariant forall k :: 0 <= k < j ==> matrix[i, k] == none
        {
          matrix[i, j] := none;
        }
      }
      assert forall k :: k !in Topo() by {
        forall k ensures k !in Topo() {
          assert k == Slot(k.id, k.iface);
        }
      }
    }

    method RoutingInit()
      requires Valid()
      modifies regs
      ensures Routes() == map[]
    {
      for k := 0 to regs.Length
        invariant forall j :: 0 <= j < k ==> regs[j] == Empty
      {
        regs[k] := Empty;
      }
    }

    /** The registers first..last get interface f. */
    method RouteRange(first: nat, last: nat, f: nat)
      requires Valid() && last < regs.Length
      modifies regs
      ensures Routes() == old(Routes()) + RangeRoutes(first, last, f)
    {
      var k := first;
      while k <= last
        invariant if first <= last then first <= k <= last + 1 else k == first
        invariant forall j :: 0 <= j < regs.Length ==> regs[j] == if first <= j < k then To(Via(f)) else old(regs[j])
      {
        regs[k] := To(Via(f));
        k := k + 1;
      }
      var r, u := Routes(), old(Routes()) + RangeRoutes(first, last, f);
      forall j: nat ensures (j in r <==> j in u) && (j in r ==> r[j] == u[j]) {
        assert j in RangeRoutes(first, last, f) <==> first <= j <= last;
        assert j < regs.Length ==> regs[j] == if first <= j <= last then To(Via(f)) else old(regs[j]);
        assert j in old(Routes()) <==> j < regs.Length && old(regs[j]).To?;
      }
    }

    /** Both ends of a cable enter the matrix. */
    method RecordLink(l: Link)
      requires Valid() && l.src < matrix.Length0 && l.dst < matrix.Length0 && l.srcIf < matrix.Length1
               && l.dstIf < matrix.Length1
      modifies matrix
      ensures Topo() == Record(old(Topo()), l)
    {
      SetCell(l.src, l.srcIf, l.dst);
      SetCell(l.dst, l.dstIf, l.src);
    }

    method SetCell(a: nat, i: nat, x: nat)
      requires Valid() && a < matrix.Length0 && i < matrix.Length1 && x < none
      modifies matrix
      ensures Topo() == old(Topo())[Slot(a, i) := x]
    {
      matrix[a, i] := x;
      var t, u := Topo(), old(Topo())[Slot(a, i) := x];
      forall k ensures (k in t <==> k in u) && (k in t ==> t[k] == u[k]) {
        assert k == Slot(k.id, k.iface);
      }
    }
  
    method SetRoute(k: nat, hop: Hop)
      requires Valid() && k < regs.Length
      modifies regs
      ensures Routes() == old(Routes())[k := hop]
    {
      regs[k] := To(hop);
    }

    /** The board receives m on interface f. */
    method Receive(cfg: Config, f: nat, m: Msg)
      requires Valid() && Fits(View(), matrix.Length0, matrix.Length1, f, m)
      modifies this, matrix, regs
      ensures View() == Consume(cfg, old(View()), f, m)
    {
      match pc
      case Idle =>
        if m.ReqId? {
          BeAsked(cfg, f, m);
        }
      case WaitSetId =>
        if m.SetId? {
          pc, id, up := WaitStart, m.dst, f;
        }
      case WaitStart =>
        if m.Start? {
          SetRoute(id, Loopback);
          pc, next, up := Scan(0), m.dst, f;
        }
      case WaitRsp(i) =>
        Respond(cfg, i, f, m);
      case WaitEnd(i, start) =>
        Collect(cfg, i, start, f, m);
      case _ =>
    }

    /** The first REQ_ID: the board forgets what it knew and answers that it has no id. */
    method BeAsked(cfg: Config, f: nat, m: Msg)
      requires Valid() && Fits(View(), matrix.Length0, matrix.Length1, f, m) && pc == Idle && m.ReqId?
      modifies this, matrix, regs
      ensures View() == Consume(cfg, old(View()), f, m)
    {
      TopologyInit();
      RoutingInit();
      RouteRange(cfg.masterId, m.src, f);
      assert map[] + RangeRoutes(cfg.masterId, m.src, f) == RangeRoutes(cfg.masterId, m.src, f);
      pc, up, id, outIf, out := WaitSetId, f, 0, f, [RspNoId(m.src, f)];
    }

    /** While its child searches, a board answers requests, records cables, and learns the last id. */
    method Collect(cfg: Config, i: nat, start: nat, f: nat, m: Msg)
      requires Valid() && Fits(View(), matrix.Length0, matrix.Length1, f, m) && pc == WaitEnd(i, start)
      modifies this, matrix, regs
      ensures View() == Consume(cfg, old(View()), f, m)
    {
      if m.ReqId? {
        outIf, out := f, [RspId(id, m.src, f)];
      } else if m.Topology? {
        RecordLink(m.link);
      } else if m.EndTopology? {
        next := m.next;
        RouteRange(start, m.next, i);
        pc := Scan(i + 1);
      }
    }

    /** The answer to REQ_ID: a numbered neighbour is recorded, a new one gets the next id. */
    method Respond(cfg: Config, i: nat, f: nat, m: Msg)
      requires Valid() && Fits(View(), matrix.Length0, matrix.Length1, f, m) && pc == WaitRsp(i)
      modifies this, matrix, regs
      ensures View() == Consume(cfg, old(View()), f, m)
    {
      if m.RspId? {
        Meet(cfg, i, f, m);
      } else if m.RspNoId? {
        Welcome(cfg, i, f, m);
      } else {
        pc := Scan(cfg.net.ifaces);
      }
    }

    method Meet(cfg: Config, i: nat, f: nat, m: Msg)
      requires Valid() && Fits(View(), matrix.Length0, matrix.Length1, f, m) && pc == WaitRsp(i) && m.RspId?
      modifies this, matrix
      ensures View() == Consume(cfg, old(View()), f, m)
    {
      RecordLink(Link(id, m.src, f, m.srcIf));
      assert Routes() == old(Routes());
      pc := Scan(i + 1);
    }

    method Welcome(cfg: Config, i: nat, f: nat, m: Msg)
      requires Valid() && Fits(View(), matrix.Length0, matrix.Length1, f, m) && pc == WaitRsp(i) && m.RspNoId?
      modifies this, matrix, regs
      ensures View() == Consume(cfg, old(View()), f, m)
    {
      NameBoard(i, m.srcIf);
    }

    /** The board behind interface i, at its interface `far`, becomes the next id. */
    method NameBoard(i: nat, far: nat)
      requires Valid() && i < matrix.Length1 && far < matrix.Length1
      requires id < matrix.Length0 && next + 1 < matrix.Length0
      modifies this, matrix, regs
      ensures Topo() == Record(old(Topo()), Link(id, next, i, far)) && Routes() == old(Routes())[next := Via(i)]
      ensures next == old(next) + 1 && pc == WaitEnd(i, next) && outIf == i && out == [SetId(id, next), Start(id, next)]
      ensures id == old(id) && up == old(up)
    {
      next := next + 1;
      outIf, out := i, [SetId(id, next), Start(id, next)];
      SetRoute(next, Via(i));
      assert Topo() == old(Topo());
      ghost var routes := Routes();
      RecordLink(Link(id, next, i, far));
      assert Routes() == routes;
      pc := WaitEnd(i, next);
    }

    /** The topology list for the parent: row by row, each known cell with the first interface that
        leads back. */
    method TopologyList() returns (ls: seq<Link>)
      requires Valid() && ScanFits(View(), matrix.Length0)
      ensures ls == Stream(Topo(), matrix.Length0, matrix.Length1, 0, 0)
    {
      ls := [];
      for i := 0 to matrix.Length0
        invariant ls + Stream(Topo(), matrix.Length0, matrix.Length1, i, 0) ==
                  Stream(Topo(), matrix.Length0, matrix.Length1, 0, 0)
      {
        for j := 0 to matrix.Length1
          invariant ls + Stream(Topo(), matrix.Length0, matrix.Length1, i, j) ==
                    Stream(Topo(), matrix.Length0, matrix.Length1, 0, 0)
        {
          if matrix[i, j] != none {
            assert Slot(i, j) in Topo();
            var w := FindBack(matrix[i, j], i);
            ghost var rest := Stream(Topo(), matrix.Length0, matrix.Length1, i, j + 1);
            assert ls + ([Link(i, matrix[i, j], j, w)] + rest) == (ls + [Link(i, matrix[i, j], j, w)]) + rest;
            ls := ls + [Link(i, matrix[i, j], j, w)];
          }
        }
      }
    }

    /** The first interface behind which row a shows b. */
    method FindBack(a: nat, b: nat) returns (w: nat)
      requires Valid() && a < matrix.Length0 && b < none
      ensures w == FirstBack(Topo(), a, b, 0, matrix.Length1)
    {
      w := 0;
      while w < matrix.Length1 && matrix[a, w] != b
        invariant w <= matrix.Length1
        invariant FirstBack(Topo(), a, b, w, matrix.Length1) == FirstBack(Topo(), a, b, 0, matrix.Length1)
      {
        assert !(Slot(a, w) in Topo() && Topo()[Slot(a, w)] == b);
        w := w + 1;
      }
    }

    /** The head of the loop over the interfaces. */
    method ScanInterface(cfg: Config, b: nat)
      requires Valid() && pc.Scan? && ScanFits(View(), matrix.Length0)
      requires cfg.rows == matrix.Length0 && cfg.net.ifaces == matrix.Length1
      modifies this
      ensures View() == Discovery.ScanOne(cfg, b, old(View()))
    {
      hide Stream, Messages;
      var i := pc.i;
      if i >= cfg.net.ifaces {
        if b != cfg.master {
          var ls := TopologyList();
          outIf, out := up, Messages(ls) + [EndTopology(next)];
        }
        pc := Done;
      } else if Port(b, i) !in cfg.net.wire || matrix[id, i] != none {
        pc := Scan(i + 1);
      } else {
        outIf, out := i, [ReqId(id)];
        pc := WaitRsp(i);
      }
    }
  }
}
