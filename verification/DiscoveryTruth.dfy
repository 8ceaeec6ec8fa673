/** At all times, even while a child's stream is half read, the table of every numbered board is a
    symmetric part of the true wiring. */
module DiscoveryTruth {
  import opened Networks
  import opened DepthFirst
  import opened TopologyTables
  import opened Knowledge
  import opened Discovery
  import opened DiscoveryInv
  import opened DiscoverySteps

  /** Some cable end is in slot k, with the board numbered x at the other end. */
  ghost predicate TrueCell(cfg: Config, d: Search, k: Slot, x: nat)
    requires cfg.net.Valid()
  {
    exists p :: p in cfg.net.wire && p.board in d.pos && cfg.net.wire[p].board in d.pos
                && SlotOf(cfg, d, p) == k && Id(cfg, d, cfg.net.wire[p].board) == x
  }

  ghost predicate TrueLink(cfg: Config, d: Search, l: Link)
    requires cfg.net.Valid()
  {
    TrueCell(cfg, d, Slot(l.src, l.srcIf), l.dst) && TrueCell(cfg, d, Slot(l.dst, l.dstIf), l.src)
  }

  ghost predicate AllTrue(cfg: Config, d: Search, ls: seq<Link>)
    requires cfg.net.Valid()
  {
    forall i :: 0 <= i < |ls| ==> TrueLink(cfg, d, ls[i])
  }

  ghost predicate Truthful(cfg: Config, d: Search, t: Table)
    requires cfg.net.Valid()
  {
    && (forall k :: k in t ==> TrueCell(cfg, d, k, t[k]))
    && Symmetric(t, cfg.rows, cfg.net.ifaces)
  }

  ghost predicate Truth(cfg: Config, s: State, v: View)
    requires Shape(cfg, s) && cfg.net.Valid()
  {
    && (forall b :: 0 <= b < |s.nodes| && b in v.d.pos ==> Truthful(cfg, v.d, s.nodes[b].topo))
    && (v.token.Returning? ==> AllTrue(cfg, v.d, v.token.ls))
  }

  /** A slot has one cable, so a true cell has one value, and never its own board's id. */
  lemma CellUnique(cfg: Config, d: Search, k: Slot, x: nat, y: nat)
    requires cfg.net.Valid() && Numbering(cfg, d) && TrueCell(cfg, d, k, x) && TrueCell(cfg, d, k, y)
    ensures x == y && x != k.id
  {
    var p :| p in cfg.net.wire && p.board in d.pos && cfg.net.wire[p].board in d.pos
             && SlotOf(cfg, d, p) == k && Id(cfg, d, cfg.net.wire[p].board) == x;
    var q :| q in cfg.net.wire && q.board in d.pos && cfg.net.wire[q].board in d.pos
             && SlotOf(cfg, d, q) == k && Id(cfg, d, cfg.net.wire[q].board) == y;
    SlotInjective(cfg, d, p, q);
    assert d.order[d.pos[p.board]] == p.board;
    assert d.order[d.pos[cfg.net.wire[p].board]] == cfg.net.wire[p].board;
  }

  lemma CellInRange(cfg: Config, d: Search, k: Slot, x: nat)
    requires cfg.Valid() && Numbering(cfg, d) && TrueCell(cfg, d, k, x)
    ensures k.id < cfg.rows && k.iface < cfg.net.ifaces
  {
    OrderBound(cfg, d);
  }

  lemma RecordTruthful(cfg: Config, d: Search, t: Table, l: Link)
    requires cfg.Valid() && Numbering(cfg, d) && Truthful(cfg, d, t) && TrueLink(cfg, d, l)
    ensures Truthful(cfg, d, Record(t, l))
  {
    hide TrueCell, Numbering, Mirrored;
    var r := Record(t, l);
    CellUnique(cfg, d, Slot(l.src, l.srcIf), l.dst, l.dst);
    assert forall k :: k in r ==> TrueCell(cfg, d, k, r[k]);
    forall k | k in r ensures Mirrored(r, cfg.rows, cfg.net.ifaces, k) {
      RecordMirrored(cfg, d, t, l, k);
    }
  }

  lemma RecordMirrored(cfg: Config, d: Search, t: Table, l: Link, k: Slot)
    requires cfg.Valid() && Numbering(cfg, d) && Truthful(cfg, d, t) && TrueLink(cfg, d, l)
    requires k in Record(t, l)
    ensures Mirrored(Record(t, l), cfg.rows, cfg.net.ifaces, k)
  {
    hide TrueCell, Numbering;
    var r := Record(t, l);
    var here, there := Slot(l.src, l.srcIf), Slot(l.dst, l.dstIf);
    CellUnique(cfg, d, here, l.dst, l.dst);
    CellInRange(cfg, d, here, l.dst);
    CellInRange(cfg, d, there, l.src);
    if k == here {
      assert Slot(r[k], l.dstIf) in r && r[Slot(r[k], l.dstIf)] == k.id;
    } else if k == there {
      assert Slot(r[k], l.srcIf) in r && r[Slot(r[k], l.srcIf)] == k.id;
    } else {
      assert Mirrored(t, cfg.rows, cfg.net.ifaces, k);
      var w :| 0 <= w < cfg.net.ifaces && Slot(t[k], w) in t && t[Slot(t[k], w)] == k.id;
      var m := Slot(t[k], w);
      if m == here {
        CellUnique(cfg, d, m, t[m], l.dst);
      } else if m == there {
        CellUnique(cfg, d, m, t[m], l.src);
      }
      assert m in r && r[m] == k.id;
    }
  }

  /** Every link of a stream is in the table it comes from, at both ends. */
  lemma {:induction false} StreamTrue(cfg: Config, d: Search, t: Table, i: nat, j: nat)
    requires cfg.net.Valid() && Truthful(cfg, d, t) && i <= cfg.rows && j <= cfg.net.ifaces
    ensures AllTrue(cfg, d, Stream(t, cfg.rows, cfg.net.ifaces, i, j))
    decreases cfg.rows - i, cfg.net.ifaces - j
  {
    hide TrueCell;
    var rows, ifaces := cfg.rows, cfg.net.ifaces;
    if i == rows {
    } else if j == ifaces {
      StreamTrue(cfg, d, t, i + 1, 0);
      assert Stream(t, rows, ifaces, i, j) == Stream(t, rows, ifaces, i + 1, 0);
    } else {
      StreamTrue(cfg, d, t, i, j + 1);
      var ls, rest := Stream(t, rows, ifaces, i, j), Stream(t, rows, ifaces, i, j + 1);
      if Slot(i, j) in t {
        var other := t[Slot(i, j)];
        var w := FirstBack(t, other, i, 0, ifaces);
        assert Mirrored(t, rows, ifaces, Slot(i, j));
        assert TrueLink(cfg, d, Link(i, other, j, w));
        assert ls == [Link(i, other, j, w)] + rest;
      } else {
        assert ls == rest;
      }
    }
  }

  lemma MoreTruthful(cfg: Config, d: Search, e: Search, t: Table)
    requires cfg.net.Valid() && Truthful(cfg, d, t)
    requires forall b :: b in d.pos ==> b in e.pos && e.pos[b] == d.pos[b]
    ensures Truthful(cfg, e, t)
  {
    forall k | k in t ensures TrueCell(cfg, e, k, t[k]) {
      MoreTrue(cfg, d, e, k, t[k]);
    }
  }

  lemma MoreTrue(cfg: Config, d: Search, e: Search, k: Slot, x: nat)
    requires cfg.net.Valid() && TrueCell(cfg, d, k, x)
    requires forall b :: b in d.pos ==> b in e.pos && e.pos[b] == d.pos[b]
    ensures TrueCell(cfg, e, k, x)
  {
    var p :| p in cfg.net.wire && p.board in d.pos && cfg.net.wire[p].board in d.pos
             && SlotOf(cfg, d, p) == k && Id(cfg, d, cfg.net.wire[p].board) == x;
    assert SlotOf(cfg, e, p) == k && Id(cfg, e, cfg.net.wire[p].board) == x;
  }

  lemma CableTrue(cfg: Config, d: Search, p: Port)
    requires cfg.net.Valid() && p in cfg.net.wire && p.board in d.pos && cfg.net.wire[p].board in d.pos
    ensures var q := cfg.net.wire[p]; TrueLink(cfg, d, Link(Id(cfg, d, p.board), Id(cfg, d, q.board), p.iface, q.iface))
  {
    var q := cfg.net.wire[p];
    assert SlotOf(cfg, d, p) == Slot(Id(cfg, d, p.board), p.iface);
    assert SlotOf(cfg, d, q) == Slot(Id(cfg, d, q.board), q.iface);
  }

  // ----- steps -----

  /** A step that changes at most the table of board b, and numbers no board. */
  lemma KeepTruth(cfg: Config, s: State, r: State, v: View, w: View, b: nat)
    requires cfg.net.Valid() && Shape(cfg, s) && Shape(cfg, r) && Truth(cfg, s, v) && OnlyBoard(s, r, b)
             && b < |s.nodes|
    requires w.d.pos == v.d.pos
    requires b in v.d.pos ==> r.nodes[b].topo == s.nodes[b].topo || Truthful(cfg, v.d, r.nodes[b].topo)
    requires w.token.Returning? ==> AllTrue(cfg, w.d, w.token.ls)
    ensures Truth(cfg, r, w)
  {
    hide Truthful, TrueLink;
    forall c | 0 <= c < |r.nodes| && c in w.d.pos ensures Truthful(cfg, w.d, r.nodes[c].topo) {
      assert Truthful(cfg, v.d, r.nodes[c].topo);
      MoreTruthful(cfg, v.d, w.d, r.nodes[c].topo);
    }
  }

  lemma PushTruth(cfg: Config, s: State, v: View, p: Port)
    requires cfg.Valid() && DiscoveryInv.Inv(cfg, s, v) && Truth(cfg, s, v) && v.token.Answering?
    requires Enabled(cfg, s, Deliver(p)) && cfg.net.wire[TopPort(v.d)].board !in v.d.pos
    ensures Truth(cfg, Next(cfg, s, Deliver(p)), View(Push(cfg, v.d), Naming))
  {
    hide Numbering, Stacked, Tracked, Finished, Passed, Ancestors, Retired, Tables, Only, Truthful, TrueLink;
    var d, e, q := v.d, Push(cfg, v.d), cfg.net.wire[TopPort(v.d)];
    var n := s.nodes[Top(d).board];
    var r := Next(cfg, s, Deliver(p));
    DeliverHead(cfg, s, TopPort(d), [Answer(cfg, d, q, n.id)], p);
    PushTruthful(cfg, d, n.topo);
    forall c | 0 <= c < |r.nodes| && c in e.pos ensures Truthful(cfg, e, r.nodes[c].topo) {
      if c == q.board {
        EmptyTruthful(cfg, e);
      } else if c != p.board {
        MoreTruthful(cfg, d, e, s.nodes[c].topo);
      }
    }
  }

  lemma PushTruthful(cfg: Config, d: Search, t: Table)
    requires cfg.Valid() && |d.stack| > 0 && Numbering(cfg, d) && Top(d).board in d.pos && Truthful(cfg, d, t)
    requires TopPort(d) in cfg.net.wire && cfg.net.wire[TopPort(d)].board !in d.pos
    ensures var p, q := TopPort(d), cfg.net.wire[TopPort(d)];
            Truthful(cfg, Push(cfg, d),
                     Record(t, Link(Id(cfg, d, p.board), cfg.masterId + |d.order|, p.iface, q.iface)))
  {
    hide Numbering, Truthful, TrueLink;
    PushNumbering(cfg, d);
    CableTrue(cfg, Push(cfg, d), TopPort(d));
    MoreTruthful(cfg, d, Push(cfg, d), t);
    RecordTruthful(cfg, Push(cfg, d), t, Link(Id(cfg, d, Top(d).board), cfg.masterId + |d.order|, Top(d).iface,
                                              cfg.net.wire[TopPort(d)].iface));
  }

  lemma EmptyTruthful(cfg: Config, d: Search)
    requires cfg.net.Valid()
    ensures Truthful(cfg, d, map[])
  {
  }

  lemma AnswerTruth(cfg: Config, s: State, v: View, p: Port)
    requires cfg.Valid() && DiscoveryInv.Inv(cfg, s, v) && Truth(cfg, s, v) && v.token.Answering?
    requires Enabled(cfg, s, Deliver(p)) && cfg.net.wire[TopPort(v.d)].board in v.d.pos
    ensures Truth(cfg, Next(cfg, s, Deliver(p)), View(Skip(v.d), Scanning))
  {
    hide Numbering, Stacked, Tracked, Finished, Passed, Ancestors, Retired, Tables, Only, Truthful, TrueLink, Idlers;
    var d, q := v.d, cfg.net.wire[TopPort(v.d)];
    var n := s.nodes[Top(d).board];
    DeliverHead(cfg, s, TopPort(d), [Answer(cfg, d, q, n.id)], p);
    CableTrue(cfg, d, p);
    RecordTruthful(cfg, d, n.topo, Link(n.id, Id(cfg, d, q.board), p.iface, q.iface));
    KeepTruth(cfg, s, Next(cfg, s, Deliver(p)), v, View(Skip(d), Scanning), p.board);
  }

  lemma ReturnTruth(cfg: Config, s: State, v: View, p: Port)
    requires cfg.Valid() && DiscoveryInv.Inv(cfg, s, v) && Truth(cfg, s, v) && v.token.Returning? && v.token.ls != []
    requires Enabled(cfg, s, Deliver(p))
    ensures Truth(cfg, Next(cfg, s, Deliver(p)), View(v.d, Returning(v.token.ls[1..])))
  {
    hide Numbering, Stacked, Tracked, Finished, Passed, Ancestors, Retired, Tables, Only, Truthful, TrueLink, Idlers,
         TableIs;
    var d, ls := v.d, v.token.ls;
    ReturnTo(cfg, s, v, p);
    assert (Messages(ls) + [EndTopology(s.nodes[Top(d).board].next)])[0] == Topology(ls[0]);
    RecordTruthful(cfg, d, s.nodes[p.board].topo, ls[0]);
    KeepTruth(cfg, s, Next(cfg, s, Deliver(p)), v, View(d, Returning(ls[1..])), p.board);
  }
}
