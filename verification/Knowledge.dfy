/** Which cables the table of each board on the stack holds, as a function of the search state. */
module Knowledge {
  import opened Networks
  import opened DepthFirst
  import opened TopologyTables

  /** The boards that finished below frame j: numbered after it and before the next frame. */
  ghost predicate Below(d: Search, j: nat, b: nat)
    requires j < |d.stack|
  {
    && b in d.last && b in d.pos
    && d.stack[j].board in d.pos && d.pos[d.stack[j].board] < d.pos[b]
    && (j + 1 < |d.stack| ==> d.stack[j + 1].board in d.pos && d.pos[b] < d.pos[d.stack[j + 1].board])
  }

  /** The ports frame j has learnt from: its own up to the current one, and those of the boards
      that finished below it. */
  ghost function Scanned(cfg: Config, d: Search, j: nat): set<Port>
    requires j < |d.stack|
  {
    var f := d.stack[j];
    set p | p in cfg.net.wire &&
            (|| (p.board == f.board && (p.iface < f.iface || (j + 1 < |d.stack| && p.iface == f.iface)))
             || Below(d, j, p.board))
  }

  /** Both ends of the cables that have an end in `ports`. */
  ghost function Ends(net: Net, ports: set<Port>): set<Port>
    requires net.Valid()
  {
    set p | p in net.wire && (p in ports || net.wire[p] in ports)
  }

  lemma EndsUnion(net: Net, ps: set<Port>, qs: set<Port>)
    requires net.Valid()
    ensures Ends(net, ps + qs) == Ends(net, ps) + Ends(net, qs)
  {
  }

  lemma EndsOne(net: Net, p: Port)
    requires net.Valid() && p in net.wire
    ensures Ends(net, {p}) == {p, net.wire[p]}
  {
  }

  function SlotOf(cfg: Config, d: Search, p: Port): Slot
    requires p.board in d.pos
  {
    Slot(Id(cfg, d, p.board), p.iface)
  }

  ghost predicate Entry(cfg: Config, d: Search, t: Table, p: Port) {
    && p in cfg.net.wire && p.board in d.pos && cfg.net.wire[p].board in d.pos
    && SlotOf(cfg, d, p) in t && t[SlotOf(cfg, d, p)] == Id(cfg, d, cfg.net.wire[p].board)
  }

  /** t holds exactly the ports in `ports`, each with the id at the other end of its cable. */
  ghost predicate TableIs(cfg: Config, d: Search, t: Table, ports: set<Port>) {
    && (forall p :: p in ports ==> Entry(cfg, d, t, p))
    && (forall k {:trigger Held(cfg, d, ports, k)} :: k in t ==> Held(cfg, d, ports, k))
  }

  ghost predicate Held(cfg: Config, d: Search, ports: set<Port>, k: Slot) {
    exists p :: p in ports && p.board in d.pos && SlotOf(cfg, d, p) == k
  }

  lemma SlotInjective(cfg: Config, d: Search, p: Port, q: Port)
    requires Numbering(cfg, d) && p.board in d.pos && q.board in d.pos
    requires SlotOf(cfg, d, p) == SlotOf(cfg, d, q)
    ensures p == q
  {
    assert d.order[d.pos[p.board]] == p.board;
    assert d.order[d.pos[q.board]] == q.board;
  }

  lemma KnownCell(cfg: Config, d: Search, t: Table, ports: set<Port>, p: Port)
    requires Numbering(cfg, d) && TableIs(cfg, d, t, ports) && p.board in d.pos
    ensures SlotOf(cfg, d, p) in t <==> p in ports
  {
    if SlotOf(cfg, d, p) in t {
      assert Held(cfg, d, ports, SlotOf(cfg, d, p));
      var q :| q in ports && q.board in d.pos && SlotOf(cfg, d, q) == SlotOf(cfg, d, p);
      SlotInjective(cfg, d, p, q);
    }
    if p in ports {
      assert Entry(cfg, d, t, p);
    }
  }

  lemma RecordCable(cfg: Config, d: Search, t: Table, ports: set<Port>, p: Port)
    requires cfg.net.Valid() && Numbering(cfg, d) && TableIs(cfg, d, t, ports)
    requires p in cfg.net.wire && p.board in d.pos && cfg.net.wire[p].board in d.pos
    ensures var q := cfg.net.wire[p];
            TableIs(cfg, d, Record(t, Link(Id(cfg, d, p.board), Id(cfg, d, q.board), p.iface, q.iface)), ports + {p, q})
  {
    var q := cfg.net.wire[p];
    var r := Record(t, Link(Id(cfg, d, p.board), Id(cfg, d, q.board), p.iface, q.iface));
    assert r == t[SlotOf(cfg, d, p) := Id(cfg, d, q.board)][SlotOf(cfg, d, q) := Id(cfg, d, p.board)];
    if SlotOf(cfg, d, p) == SlotOf(cfg, d, q) {
      SlotInjective(cfg, d, p, q);
    }
    forall x | x in ports + {p, q} ensures Entry(cfg, d, r, x) {
      if x != p && x != q {
        assert Entry(cfg, d, t, x);
        if SlotOf(cfg, d, x) == SlotOf(cfg, d, p) {
          SlotInjective(cfg, d, x, p);
        } else if SlotOf(cfg, d, x) == SlotOf(cfg, d, q) {
          SlotInjective(cfg, d, x, q);
        }
      }
    }
    forall k | k in r ensures Held(cfg, d, ports + {p, q}, k) {
      if k == SlotOf(cfg, d, p) {
      } else if k == SlotOf(cfg, d, q) {
      } else {
        assert Held(cfg, d, ports, k);
        var x :| x in ports && x.board in d.pos && SlotOf(cfg, d, x) == k;
        assert x in ports + {p, q};
      }
    }
  }

  lemma MergeTables(cfg: Config, d: Search, u: Table, ps: set<Port>, t: Table, qs: set<Port>)
    requires Numbering(cfg, d) && TableIs(cfg, d, u, ps) && TableIs(cfg, d, t, qs)
    ensures TableIs(cfg, d, u + t, ps + qs)
  {
    forall x | x in ps + qs ensures Entry(cfg, d, u + t, x) {
      if x in qs {
        assert Entry(cfg, d, t, x);
      } else {
        assert Entry(cfg, d, u, x);
        KnownCell(cfg, d, t, qs, x);
      }
    }
    forall k | k in u + t ensures Held(cfg, d, ps + qs, k) {
      if k in t {
        assert Held(cfg, d, qs, k);
        var x :| x in qs && x.board in d.pos && SlotOf(cfg, d, x) == k;
        assert x in ps + qs;
      } else {
        assert Held(cfg, d, ps, k);
        var x :| x in ps && x.board in d.pos && SlotOf(cfg, d, x) == k;
        assert x in ps + qs;
      }
    }
  }

  lemma SameTable(cfg: Config, d: Search, e: Search, t: Table, ports: set<Port>)
    requires TableIs(cfg, d, t, ports)
    requires forall b :: b in d.pos ==> b in e.pos && e.pos[b] == d.pos[b]
    ensures TableIs(cfg, e, t, ports)
  {
    forall p | p in ports ensures Entry(cfg, e, t, p) {
      assert Entry(cfg, d, t, p);
    }
    forall k | k in t ensures Held(cfg, e, ports, k) {
      assert Held(cfg, d, ports, k);
      var p :| p in ports && p.board in d.pos && SlotOf(cfg, d, p) == k;
      assert p in ports && p.board in e.pos && SlotOf(cfg, e, p) == k;
    }
  }

  /** The search for the remote interface succeeds in every such table. */
  lemma TableSymmetric(cfg: Config, d: Search, t: Table, ports: set<Port>, rows: nat)
    requires cfg.net.Valid() && Numbering(cfg, d) && TableIs(cfg, d, t, ports)
    requires forall p :: p in ports ==> p in cfg.net.wire && cfg.net.wire[p] in ports
    requires cfg.masterId + |d.order| <= rows
    ensures Symmetric(t, rows, cfg.net.ifaces)
  {
    forall k | k in t ensures Mirrored(t, rows, cfg.net.ifaces, k) {
      assert Held(cfg, d, ports, k);
      var p :| p in ports && p.board in d.pos && SlotOf(cfg, d, p) == k;
      var q := cfg.net.wire[p];
      assert Entry(cfg, d, t, p) && Entry(cfg, d, t, q);
      assert Slot(t[k], q.iface) in t && t[Slot(t[k], q.iface)] == k.id;
    }
  }

  // ----- how the steps of the search change what has been scanned -----

  lemma ScannedSkip(cfg: Config, d: Search)
    requires |d.stack| > 0
    ensures var top := |d.stack| - 1;
            Scanned(cfg, Skip(d), top) ==
            Scanned(cfg, d, top) + if TopPort(d) in cfg.net.wire then {TopPort(d)} else {}
  {
  }

  lemma ScannedPush(cfg: Config, d: Search)
    requires |d.stack| > 0 && Top(d).board in d.pos
    requires forall b :: b in d.last ==> b in d.pos
    requires forall b :: b in d.pos ==> d.pos[b] < |d.order|
    requires TopPort(d) in cfg.net.wire && cfg.net.wire[TopPort(d)].board !in d.pos
    ensures Scanned(cfg, Push(cfg, d), |d.stack| - 1) == Scanned(cfg, d, |d.stack| - 1) + {TopPort(d)}
    ensures Scanned(cfg, Push(cfg, d), |d.stack|) == {}
  {
    var e := Push(cfg, d);
    var top := |d.stack| - 1;
    assert forall b :: Below(e, top, b) <==> Below(d, top, b);
    assert forall b :: b in e.last ==> !Below(e, |d.stack|, b);
  }

  lemma ScannedPop(cfg: Config, d: Search)
    requires cfg.net.Valid() && Inv(cfg, d)
    requires |d.stack| > 1 && Top(d).iface == cfg.net.ifaces
    ensures Scanned(cfg, Pop(d), |d.stack| - 2) == Scanned(cfg, d, |d.stack| - 2) + Scanned(cfg, d, |d.stack| - 1)
  {
    hide Tracked, Finished, Passed, Linked;
    var e := Pop(d);
    var n := |d.stack| - 1;
    var below, top := d.stack[n - 1].board, d.stack[n].board;
    assert below in d.pos && top in d.pos && d.pos[below] < d.pos[top];
    forall b ensures Below(e, n - 1, b) <==> b == top || Below(d, n - 1, b) || Below(d, n, b) {
      if b in d.pos {
        assert d.order[d.pos[b]] == b && d.order[d.pos[top]] == top;
      }
    }
  }

  /** Frames that keep their interface and their upper neighbour keep what they scanned. */
  lemma ScannedKept(cfg: Config, d: Search, e: Search, j: nat)
    requires j + 1 < |d.stack| && j + 1 < |e.stack|
    requires e.stack[j] == d.stack[j] && e.stack[j + 1].board == d.stack[j + 1].board
    requires d.stack[j].board in d.pos && d.stack[j + 1].board in d.pos
    requires forall b :: b in d.pos ==> b in e.pos && e.pos[b] == d.pos[b]
    requires forall b :: b in d.last ==> b in e.last && b in d.pos
    requires forall b :: b in e.last && b !in d.last ==> b in e.pos && d.pos[d.stack[j + 1].board] < e.pos[b]
    ensures Scanned(cfg, e, j) == Scanned(cfg, d, j)
  {
    assert forall b :: Below(e, j, b) <==> Below(d, j, b);
  }
}
