/** The depth-first search that discovery performs, freed of messages: a stack of boards, each
    with the interface it has reached, and the numbers handed out so far. */
module DepthFirst {
  import opened FiniteSets
  import opened Networks

  datatype Frame = Frame(board: nat, iface: nat)

  /** `order` lists the boards in the order they were numbered, `pos` is its inverse, `up` gives a
      board's interface towards its parent, and `last` the greatest position in the subtree of a
      finished board. */
  datatype Search = Search(stack: seq<Frame>, order: seq<nat>, pos: map<nat, nat>,
                           up: map<nat, nat>, last: map<nat, nat>)

  /** The network, the board that runs as master, the id it takes, and AXIOM_NODES_NUM, which
      leaves room for an id per board. */
  datatype Config = Config(net: Net, master: nat, masterId: nat, rows: nat) {
    ghost predicate Valid() {
      net.Valid() && net.Connected(master) && masterId + net.boards <= rows
    }
  }

  function Top(d: Search): Frame
    requires |d.stack| > 0
  {
    d.stack[|d.stack| - 1]
  }

  function TopPort(d: Search): Port
    requires |d.stack| > 0
  {
    Port(Top(d).board, Top(d).iface)
  }

  /** The id of a numbered board: ids are handed out upwards from the master's. */
  function Id(cfg: Config, d: Search, b: nat): nat
    requires b in d.pos
  {
    cfg.masterId + d.pos[b]
  }

  function Begin(cfg: Config): Search {
    Search([Frame(cfg.master, 0)], [cfg.master], map[cfg.master := 0], map[], map[])
  }

  /** The top frame moves past an interface that leads nowhere or to a numbered board. */
  function Skip(d: Search): Search
    requires |d.stack| > 0
  {
    d.(stack := d.stack[|d.stack| - 1 := Frame(Top(d).board, Top(d).iface + 1)])
  }

  /** The board at the far end of the top frame's interface gets the next number. */
  function Push(cfg: Config, d: Search): Search
    requires |d.stack| > 0 && TopPort(d) in cfg.net.wire
  {
    var q := cfg.net.wire[TopPort(d)];
    Search(d.stack + [Frame(q.board, 0)], d.order + [q.board],
           d.pos[q.board := |d.order|], d.up[q.board := q.iface], d.last)
  }

  /** The top frame is finished: its parent moves past the interface that led to it. */
  function Pop(d: Search): Search
    requires |d.stack| > 1 && |d.order| > 0
  {
    var below := d.stack[|d.stack| - 2];
    d.(stack := d.stack[..|d.stack| - 2] + [Frame(below.board, below.iface + 1)],
       last := d.last[Top(d).board := |d.order| - 1])
  }

  // ----- what every search state satisfies -----

  ghost predicate Numbering(cfg: Config, d: Search) {
    && |d.order| > 0 && d.order[0] == cfg.master
    && (forall k :: 0 <= k < |d.order| ==>
          d.order[k] < cfg.net.boards && d.order[k] in d.pos && d.pos[d.order[k]] == k)
    && (forall b :: b in d.pos ==> d.pos[b] < |d.order| && d.order[d.pos[b]] == b)
  }

  ghost predicate Stacked(cfg: Config, d: Search) {
    && |d.stack| > 0 && d.stack[0].board == cfg.master
    && (forall j :: 0 <= j < |d.stack| ==>
          d.stack[j].board in d.pos && d.stack[j].board !in d.last && d.stack[j].iface <= cfg.net.ifaces)
    && (forall j, k :: 0 <= j < k < |d.stack| ==> d.pos[d.stack[j].board] < d.pos[d.stack[k].board])
    && (forall j :: 0 < j < |d.stack| ==> Linked(cfg, d, j))
  }

  /** Frame j - 1 stands at the cable that leads to frame j. */
  ghost predicate Linked(cfg: Config, d: Search, j: nat)
    requires 0 < j < |d.stack|
  {
    var below := Port(d.stack[j - 1].board, d.stack[j - 1].iface);
    && below in cfg.net.wire && d.stack[j].board in d.up
    && cfg.net.wire[below] == Port(d.stack[j].board, d.up[d.stack[j].board])
  }

  /** Every numbered board is finished or on the stack. */
  ghost predicate Tracked(d: Search) {
    && (forall b :: b in d.last ==> b in d.pos && d.pos[b] <= d.last[b] < |d.order|)
    && (forall b :: b in d.pos && b !in d.last ==> OnStack(d, b))
  }

  ghost predicate OnStack(d: Search, b: nat) {
    exists j :: 0 <= j < |d.stack| && d.stack[j].board == b
  }

  /** A finished board has only numbered neighbours, and those still on the stack came before it. */
  ghost predicate Finished(cfg: Config, d: Search) {
    forall p :: p in cfg.net.wire && p.board in d.last ==> Behind(cfg, d, p)
  }

  ghost predicate Behind(cfg: Config, d: Search, p: Port)
    requires p in cfg.net.wire
  {
    var c := cfg.net.wire[p].board;
    p.board in d.pos && c in d.pos && (c !in d.last ==> d.pos[c] < d.pos[p.board])
  }

  /** The interfaces that a frame has passed lead to numbered boards. */
  ghost predicate Passed(cfg: Config, d: Search) {
    forall j :: 0 <= j < |d.stack| ==> PassedBy(cfg, d, d.stack[j])
  }

  ghost predicate PassedBy(cfg: Config, d: Search, f: Frame) {
    forall p :: p in cfg.net.wire && p.board == f.board && p.iface < f.iface ==> cfg.net.wire[p].board in d.pos
  }

  ghost predicate Inv(cfg: Config, d: Search) {
    && |d.stack| > 0 && |d.order| > 0
    && Numbering(cfg, d) && Stacked(cfg, d) && Tracked(d) && Finished(cfg, d) && Passed(cfg, d)
  }

  lemma BeginInv(cfg: Config)
    requires cfg.Valid()
    ensures Inv(cfg, Begin(cfg))
  {
    assert Begin(cfg).stack[0].board == cfg.master;
  }

  lemma SkipInv(cfg: Config, d: Search)
    requires cfg.net.Valid() && Inv(cfg, d) && Top(d).iface < cfg.net.ifaces
    requires TopPort(d) in cfg.net.wire ==> cfg.net.wire[TopPort(d)].board in d.pos
    ensures Inv(cfg, Skip(d))
  {
    SkipStacked(cfg, d);
    SkipTracked(cfg, d);
    SkipPassed(cfg, d);
    SameFinished(cfg, d, Skip(d));
    assert Numbering(cfg, Skip(d));
  }

  lemma SkipStacked(cfg: Config, d: Search)
    requires Stacked(cfg, d) && Top(d).iface < cfg.net.ifaces
    ensures Stacked(cfg, Skip(d))
  {
    var e := Skip(d);
    assert forall j :: 0 <= j < |d.stack| ==> e.stack[j].board == d.stack[j].board;
    forall j | 0 < j < |e.stack| ensures Linked(cfg, e, j) {
      assert Linked(cfg, d, j);
    }
  }

  lemma SkipTracked(cfg: Config, d: Search)
    requires |d.stack| > 0 && Tracked(d)
    ensures Tracked(Skip(d))
  {
    forall b | b in d.pos && b !in d.last ensures OnStack(Skip(d), b) {
      assert OnStack(d, b);
      var j :| 0 <= j < |d.stack| && d.stack[j].board == b;
      assert Skip(d).stack[j].board == b;
    }
  }

  lemma SkipPassed(cfg: Config, d: Search)
    requires |d.stack| > 0 && Passed(cfg, d)
    requires TopPort(d) in cfg.net.wire ==> cfg.net.wire[TopPort(d)].board in d.pos
    ensures Passed(cfg, Skip(d))
  {
    var e := Skip(d);
    forall j | 0 <= j < |e.stack| ensures PassedBy(cfg, e, e.stack[j]) {
      assert PassedBy(cfg, d, d.stack[j]);
    }
  }

  /** Finished boards keep their property while no board finishes and numbers only get added. */
  lemma SameFinished(cfg: Config, d: Search, e: Search)
    requires Finished(cfg, d) && e.last == d.last
    requires forall b :: b in d.pos ==> b in e.pos && e.pos[b] == d.pos[b]
    ensures Finished(cfg, e)
  {
    forall p | p in cfg.net.wire && p.board in e.last ensures Behind(cfg, e, p) {
      assert Behind(cfg, d, p);
    }
  }

  lemma PushInv(cfg: Config, d: Search)
    requires cfg.net.Valid() && Inv(cfg, d)
    requires TopPort(d) in cfg.net.wire && cfg.net.wire[TopPort(d)].board !in d.pos
    ensures Inv(cfg, Push(cfg, d))
  {
    var e := Push(cfg, d);
    PushNumbering(cfg, d);
    PushStacked(cfg, d);
    PushTracked(cfg, d);
    SameFinished(cfg, d, e);
    forall j | 0 <= j < |e.stack| ensures PassedBy(cfg, e, e.stack[j]) {
      if j < |d.stack| {
        assert PassedBy(cfg, d, d.stack[j]);
      }
    }
    assert Passed(cfg, e);
  }

  lemma PushNumbering(cfg: Config, d: Search)
    requires cfg.net.Valid() && Numbering(cfg, d) && |d.stack| > 0
    requires TopPort(d) in cfg.net.wire && cfg.net.wire[TopPort(d)].board !in d.pos
    ensures Numbering(cfg, Push(cfg, d))
  {
  }

  lemma PushStacked(cfg: Config, d: Search)
    requires Stacked(cfg, d)
    requires forall b :: b in d.pos ==> d.pos[b] < |d.order|
    requires TopPort(d) in cfg.net.wire && cfg.net.wire[TopPort(d)].board !in d.pos
             && cfg.net.wire[TopPort(d)].board !in d.last
    ensures Stacked(cfg, Push(cfg, d))
  {
    var e := Push(cfg, d);
    forall j | 0 < j < |e.stack| ensures Linked(cfg, e, j) {
      if j < |d.stack| {
        assert Linked(cfg, d, j);
      }
    }
  }

  lemma PushTracked(cfg: Config, d: Search)
    requires |d.stack| > 0 && Tracked(d)
    requires TopPort(d) in cfg.net.wire && cfg.net.wire[TopPort(d)].board !in d.pos
    ensures Tracked(Push(cfg, d))
  {
    var e := Push(cfg, d);
    forall b | b in e.pos && b !in e.last ensures OnStack(e, b) {
      if b in d.pos {
        assert OnStack(d, b);
        var j :| 0 <= j < |d.stack| && d.stack[j].board == b;
        assert e.stack[j].board == b;
      } else {
        assert e.stack[|d.stack|].board == b;
      }
    }
  }

  lemma PopInv(cfg: Config, d: Search)
    requires cfg.net.Valid() && Inv(cfg, d)
    requires |d.stack| > 1 && Top(d).iface == cfg.net.ifaces
    ensures Inv(cfg, Pop(d))
  {
    var e := Pop(d);
    PopStacked(cfg, d);
    PopTracked(cfg, d);
    forall p | p in cfg.net.wire && p.board in e.last ensures Behind(cfg, e, p) {
      PopBehind(cfg, d, p);
    }
    assert Finished(cfg, e);
    PopPassed(cfg, d);
    assert Numbering(cfg, e);
  }

  lemma PopStacked(cfg: Config, d: Search)
    requires cfg.net.Valid() && |d.order| > 0 && |d.stack| > 1 && Stacked(cfg, d)
    ensures Stacked(cfg, Pop(d))
  {
    var e := Pop(d);
    assert Linked(cfg, d, |d.stack| - 1);
    assert forall j :: 0 <= j < |e.stack| ==> e.stack[j].board == d.stack[j].board;
    forall j | 0 < j < |e.stack| ensures Linked(cfg, e, j) {
      assert Linked(cfg, d, j);
    }
  }

  lemma PopTracked(cfg: Config, d: Search)
    requires Numbering(cfg, d) && |d.stack| > 1 && Top(d).board in d.pos && Tracked(d)
    ensures Tracked(Pop(d))
  {
    var e := Pop(d);
    forall b | b in e.pos && b !in e.last ensures OnStack(e, b) {
      assert OnStack(d, b);
      var j :| 0 <= j < |d.stack| && d.stack[j].board == b;
      assert e.stack[j].board == b;
    }
  }

  lemma PopBehind(cfg: Config, d: Search, p: Port)
    requires cfg.net.Valid() && Inv(cfg, d)
    requires |d.stack| > 1 && Top(d).iface == cfg.net.ifaces
    requires p in cfg.net.wire && p.board in Pop(d).last
    ensures Behind(cfg, Pop(d), p)
  {
    var n := |d.stack| - 1;
    var c := cfg.net.wire[p].board;
    if p.board in d.last {
      assert Behind(cfg, d, p);
    } else {
      assert PassedBy(cfg, d, d.stack[n]);
      if c !in d.last {
        var j :| 0 <= j < |d.stack| && d.stack[j].board == c;
        assert j < n;
      }
    }
  }

  lemma PopPassed(cfg: Config, d: Search)
    requires cfg.net.Valid() && |d.order| > 0 && |d.stack| > 1 && Stacked(cfg, d) && Passed(cfg, d)
    ensures Passed(cfg, Pop(d))
  {
    var e := Pop(d);
    assert Linked(cfg, d, |d.stack| - 1);
    forall j | 0 <= j < |e.stack| ensures PassedBy(cfg, e, e.stack[j]) {
      assert PassedBy(cfg, d, d.stack[j]);
    }
  }

  /** When the scan of the master ends every board has a number. */
  lemma AllNumbered(cfg: Config, d: Search)
    requires cfg.Valid() && Inv(cfg, d)
    requires |d.stack| == 1 && Top(d).iface == cfg.net.ifaces
    ensures forall b :: 0 <= b < cfg.net.boards <==> b in d.pos
    ensures |d.order| == cfg.net.boards
  {
    forall p | p in cfg.net.wire && p.board in d.pos ensures cfg.net.wire[p].board in d.pos {
      if p.board in d.last {
        assert Behind(cfg, d, p);
      } else {
        assert OnStack(d, p.board);
        assert PassedBy(cfg, d, d.stack[0]);
      }
    }
    assert cfg.net.Closed(d.pos.Keys);
    assert d.order[0] in d.pos.Keys;
    forall b | 0 <= b < cfg.net.boards ensures b in d.order {
      assert b in d.pos.Keys;
      assert d.order[d.pos[b]] == b;
    }
    Pigeonhole(d.order, cfg.net.boards);
  }

  /** There are never more numbers than boards. */
  lemma OrderBound(cfg: Config, d: Search)
    requires Numbering(cfg, d)
    ensures |d.order| <= cfg.net.boards
  {
    Pigeonhole(d.order, cfg.net.boards);
  }
}
