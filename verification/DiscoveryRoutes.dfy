/** The interim routing tables that discovery leaves behind: the interval of numbers below each
    child goes down to that child, and every number up to the parent's goes up. */
module DiscoveryRoutes {
  import opened Networks
  import opened DepthFirst
  import opened SearchTree
  import opened Discovery
  import opened DiscoveryInv
  import opened DiscoverySteps

  /** `hop` leads from b to its child whose interval holds id k. */
  ghost predicate Down(cfg: Config, d: Search, b: nat, hop: Hop, k: int)
    requires cfg.net.Valid()
  {
    && hop.Via? && Port(b, hop.iface) in cfg.net.wire
    && var c := cfg.net.wire[Port(b, hop.iface)];
       && c.board in d.pos && c.board in d.up && d.up[c.board] == c.iface && Id(cfg, d, c.board) <= k
       && (if c.board in d.last then k <= cfg.masterId + d.last[c.board] else k == Id(cfg, d, c.board))
  }

  ghost predicate HasParent(cfg: Config, d: Search, b: nat) {
    && b in d.pos && b in d.up && Port(b, d.up[b]) in cfg.net.wire
    && Parent(cfg, d, b) in d.pos && d.pos[Parent(cfg, d, b)] < d.pos[b]
  }

  ghost predicate Route(cfg: Config, d: Search, b: nat, rt: map<nat, Hop>, reach: nat, self: bool, k: nat)
    requires cfg.net.Valid() && b in d.pos && (b != cfg.master ==> HasParent(cfg, d, b))
  {
    if b != cfg.master && cfg.masterId <= k <= Id(cfg, d, Parent(cfg, d, b)) then k in rt && rt[k] == Via(d.up[b])
    else if k == Id(cfg, d, b) then (k in rt <==> self) && (self ==> rt[k] == Loopback)
    else if Id(cfg, d, b) < k <= cfg.masterId + reach then k in rt && Down(cfg, d, b, rt[k], k)
    else k !in rt
  }

  /** The table of b: up to the parent, down to the children numbered so far, to itself if `self`. */
  ghost predicate Routed(cfg: Config, d: Search, b: nat, rt: map<nat, Hop>, reach: nat, self: bool) {
    && cfg.net.Valid() && b in d.pos && (b != cfg.master ==> HasParent(cfg, d, b))
    && forall k {:trigger Route(cfg, d, b, rt, reach, self, k)} :: Route(cfg, d, b, rt, reach, self, k)
  }

  ghost predicate RetiredRoutes(cfg: Config, s: State, d: Search)
    requires Shape(cfg, s)
  {
    forall b :: b in d.last ==>
      && b < |s.nodes| && s.nodes[b].next == cfg.masterId + d.last[b]
      && Routed(cfg, d, b, s.nodes[b].rt, d.last[b], true)
  }

  ghost predicate FrameRoutes(cfg: Config, s: State, v: View, j: nat)
    requires Shape(cfg, s) && j < |v.d.stack| && |v.d.order| > 0
  {
    var b, top := v.d.stack[j].board, j == |v.d.stack| - 1;
    && b < |s.nodes| && (!top ==> v.d.stack[j + 1].board in v.d.pos)
    && Routed(cfg, v.d, b, s.nodes[b].rt,
              if top then |v.d.order| - 1 else v.d.pos[v.d.stack[j + 1].board],
              !(top && (v.token.Naming? || v.token.Starting?)))
  }

  ghost predicate NewcomerRoutes(cfg: Config, s: State, v: View)
    requires Shape(cfg, s) && cfg.net.Valid() && |v.d.stack| > 0
  {
    v.token.Answering? && TopPort(v.d) in cfg.net.wire && Top(v.d).board in v.d.pos ==>
      var q := cfg.net.wire[TopPort(v.d)];
      q.board !in v.d.pos ==> s.nodes[q.board].rt == RangeRoutes(cfg.masterId, Id(cfg, v.d, Top(v.d).board), q.iface)
  }

  ghost predicate Routes(cfg: Config, s: State, v: View)
    requires Shape(cfg, s) && cfg.net.Valid() && |v.d.stack| > 0 && |v.d.order| > 0
  {
    && RetiredRoutes(cfg, s, v.d)
    && (forall j {:trigger FrameRoutes(cfg, s, v, j)} :: 0 <= j < |v.d.stack| ==> FrameRoutes(cfg, s, v, j))
    && NewcomerRoutes(cfg, s, v)
  }

  lemma InitRoutes(cfg: Config, s: State)
    requires cfg.Valid() && Init(cfg, s)
    ensures Routes(cfg, s, View(Begin(cfg), Scanning))
  {
    var d := Begin(cfg);
    var rt := s.nodes[cfg.master].rt;
    forall k ensures Route(cfg, d, cfg.master, rt, 0, true, k) {
    }
    assert FrameRoutes(cfg, s, View(d, Scanning), 0);
  }

  // ----- steps that leave the tables alone -----

  ghost predicate SameNumbers(d: Search, e: Search) {
    && e.order == d.order && e.pos == d.pos && e.up == d.up && e.last == d.last && |e.stack| == |d.stack|
    && forall j :: 0 <= j < |d.stack| ==> e.stack[j].board == d.stack[j].board
  }

  predicate Started(t: Token) {
    !t.Naming? && !t.Starting?
  }

  lemma SameRouted(cfg: Config, d: Search, e: Search, b: nat, rt: map<nat, Hop>, reach: nat, self: bool)
    requires Routed(cfg, d, b, rt, reach, self) && SameNumbers(d, e)
    ensures Routed(cfg, e, b, rt, reach, self)
  {
    forall k ensures Route(cfg, e, b, rt, reach, self, k) {
      assert Route(cfg, d, b, rt, reach, self, k);
    }
  }

  lemma KeepRoutes(cfg: Config, s: State, r: State, v: View, w: View)
    requires cfg.net.Valid() && Shape(cfg, s) && Shape(cfg, r) && |v.d.stack| > 0 && |v.d.order| > 0
    requires Routes(cfg, s, v) && SameNumbers(v.d, w.d) && Started(v.token) == Started(w.token)
    requires forall b :: 0 <= b < |s.nodes| && b in v.d.pos ==> r.nodes[b].rt == s.nodes[b].rt
    requires forall b :: 0 <= b < |s.nodes| && b in v.d.last ==> r.nodes[b].next == s.nodes[b].next
    requires NewcomerRoutes(cfg, r, w)
    ensures Routes(cfg, r, w)
  {
    hide Routed, NewcomerRoutes;
    forall b | b in w.d.last
      ensures b < |r.nodes| && r.nodes[b].next == cfg.masterId + w.d.last[b]
              && Routed(cfg, w.d, b, r.nodes[b].rt, w.d.last[b], true)
    {
      RoutedNumbered(cfg, v.d, b, s.nodes[b].rt, v.d.last[b], true);
      SameRouted(cfg, v.d, w.d, b, s.nodes[b].rt, v.d.last[b], true);
    }
    forall j | 0 <= j < |w.d.stack| ensures FrameRoutes(cfg, r, w, j) {
      assert FrameRoutes(cfg, s, v, j);
      var b, top := v.d.stack[j].board, j == |v.d.stack| - 1;
      var reach := if top then |v.d.order| - 1 else v.d.pos[v.d.stack[j + 1].board];
      RoutedNumbered(cfg, v.d, b, s.nodes[b].rt, reach, !(top && !Started(v.token)));
      SameRouted(cfg, v.d, w.d, b, s.nodes[b].rt, reach, !(top && !Started(v.token)));
    }
  }

  lemma RoutedNumbered(cfg: Config, d: Search, b: nat, rt: map<nat, Hop>, reach: nat, self: bool)
    requires Routed(cfg, d, b, rt, reach, self)
    ensures b in d.pos
  {
  }

  // ----- a board is numbered -----

  lemma PushRouted(cfg: Config, d: Search, b: nat, rt: map<nat, Hop>, reach: nat, self: bool)
    requires cfg.net.Valid() && |d.stack| > 0 && Routed(cfg, d, b, rt, reach, self)
    requires TopPort(d) in cfg.net.wire && cfg.net.wire[TopPort(d)].board !in d.pos
    ensures Routed(cfg, Push(cfg, d), b, rt, reach, self)
  {
    forall k ensures Route(cfg, Push(cfg, d), b, rt, reach, self, k) {
      assert Route(cfg, d, b, rt, reach, self, k);
    }
  }

  lemma PushParent(cfg: Config, d: Search, rt: map<nat, Hop>)
    requires cfg.net.Valid() && |d.stack| > 0 && |d.order| > 0
    requires Routed(cfg, d, Top(d).board, rt, |d.order| - 1, true) && d.pos[Top(d).board] < |d.order|
    requires TopPort(d) in cfg.net.wire && cfg.net.wire[TopPort(d)].board !in d.pos
             && cfg.net.wire[TopPort(d)].board !in d.last
    ensures Routed(cfg, Push(cfg, d), Top(d).board, rt[cfg.masterId + |d.order| := Via(Top(d).iface)], |d.order|, true)
  {
    var more := rt[cfg.masterId + |d.order| := Via(Top(d).iface)];
    PushRouted(cfg, d, Top(d).board, rt, |d.order| - 1, true);
    forall k ensures Route(cfg, Push(cfg, d), Top(d).board, more, |d.order|, true, k) {
      assert Route(cfg, Push(cfg, d), Top(d).board, rt, |d.order| - 1, true, k);
    }
  }

  lemma PushNew(cfg: Config, d: Search)
    requires cfg.net.Valid() && |d.stack| > 0 && Top(d).board in d.pos && d.pos[Top(d).board] < |d.order|
    requires TopPort(d) in cfg.net.wire && cfg.net.wire[TopPort(d)].board !in d.pos && cfg.master in d.pos
    ensures var q := cfg.net.wire[TopPort(d)];
            Routed(cfg, Push(cfg, d), q.board, RangeRoutes(cfg.masterId, Id(cfg, d, Top(d).board), q.iface),
                |d.order|, false)
  {
    var e, q := Push(cfg, d), cfg.net.wire[TopPort(d)];
    var rt := RangeRoutes(cfg.masterId, Id(cfg, d, Top(d).board), q.iface);
    forall k ensures Route(cfg, e, q.board, rt, |d.order|, false, k) {
    }
  }

  /** From s to r the top board gave the next id to the board that it scans. */
  ghost predicate Named(cfg: Config, s: State, r: State, v: View) {
    && DiscoveryInv.Inv(cfg, s, v) && Routes(cfg, s, v) && v.token.Answering?
    && cfg.net.wire[TopPort(v.d)].board !in v.d.pos && Shape(cfg, r) && OnlyBoard(s, r, Top(v.d).board)
    && r.nodes[Top(v.d).board].rt == s.nodes[Top(v.d).board].rt[cfg.masterId + |v.d.order| := Via(Top(v.d).iface)]
  }

  lemma PushRoutes(cfg: Config, s: State, r: State, v: View)
    requires Named(cfg, s, r, v)
    ensures Routes(cfg, r, View(Push(cfg, v.d), Naming))
  {
    hide Numbering, Finished, Passed, Ancestors, Retired, Only, Quiet, Tables, Idlers, Linked, Routed, Stacked,
         Tracked, FrameRoutes;
    var d, e := v.d, Push(cfg, v.d);
    AboveOthers(cfg, d);
    forall b | b in e.last
      ensures b < |r.nodes| && r.nodes[b].next == cfg.masterId + e.last[b]
              && Routed(cfg, e, b, r.nodes[b].rt, e.last[b], true)
    {
      PushRouted(cfg, d, b, s.nodes[b].rt, d.last[b], true);
    }
    forall j | 0 <= j < |e.stack| ensures FrameRoutes(cfg, r, View(e, Naming), j) {
      if j < |d.stack| - 1 {
        PushLower(cfg, s, r, v, j);
      } else if j == |d.stack| - 1 {
        PushTop(cfg, s, r, v);
      } else {
        PushNewcomer(cfg, s, r, v);
      }
    }
  }

  lemma PushLower(cfg: Config, s: State, r: State, v: View, j: nat)
    requires Named(cfg, s, r, v) && j < |v.d.stack| - 1
    ensures FrameRoutes(cfg, r, View(Push(cfg, v.d), Naming), j)
  {
    hide Finished, Passed, Ancestors, Retired, Only, Quiet, Tables, Idlers, Linked, Routed, RetiredRoutes,
         NewcomerRoutes, Numbering;
    var d := v.d;
    assert FrameRoutes(cfg, s, v, j);
    assert d.pos[d.stack[j].board] < d.pos[Top(d).board];
    PushRouted(cfg, d, d.stack[j].board, s.nodes[d.stack[j].board].rt, d.pos[d.stack[j + 1].board], true);
  }

  lemma PushTop(cfg: Config, s: State, r: State, v: View)
    requires Named(cfg, s, r, v)
    ensures FrameRoutes(cfg, r, View(Push(cfg, v.d), Naming), |v.d.stack| - 1)
  {
    hide Finished, Passed, Ancestors, Retired, Only, Quiet, Tables, Idlers, Linked, Routed, RetiredRoutes,
         NewcomerRoutes;
    assert FrameRoutes(cfg, s, v, |v.d.stack| - 1);
    PushParent(cfg, v.d, s.nodes[Top(v.d).board].rt);
  }

  lemma PushNewcomer(cfg: Config, s: State, r: State, v: View)
    requires Named(cfg, s, r, v)
    ensures FrameRoutes(cfg, r, View(Push(cfg, v.d), Naming), |v.d.stack|)
  {
    hide Finished, Passed, Ancestors, Retired, Only, Quiet, Tables, Idlers, Linked, Routed, RetiredRoutes;
    PushNew(cfg, v.d);
  }

  // ----- a board learns its id and starts -----

  lemma StartRoutes(cfg: Config, s: State, v: View, p: Port)
    requires DiscoveryInv.Inv(cfg, s, v) && Routes(cfg, s, v) && v.token.Starting? && Enabled(cfg, s, Deliver(p))
    ensures Routes(cfg, Next(cfg, s, Deliver(p)), View(v.d, Scanning))
  {
    hide Finished, Passed, Ancestors, Retired, Only, Quiet, Tables, Idlers, Linked, Routed, Numbering, Tracked;
    var d, b, top := v.d, Top(v.d).board, |v.d.stack| - 1;
    var r := Next(cfg, s, Deliver(p));
    var from, to := Id(cfg, d, d.stack[|d.stack| - 2].board), Id(cfg, d, b);
    DeliverHead(cfg, s, Port(b, d.up[b]), [Start(from, to)], p);
    forall j | 0 <= j < |d.stack| ensures FrameRoutes(cfg, r, View(d, Scanning), j) {
      assert FrameRoutes(cfg, s, v, j);
      if j < top {
        assert d.pos[d.stack[j].board] < d.pos[d.stack[top].board];
      } else {
        SelfRouted(cfg, d, b, s.nodes[b].rt, |d.order| - 1);
      }
    }
  }

  lemma SelfRouted(cfg: Config, d: Search, b: nat, rt: map<nat, Hop>, reach: nat)
    requires Routed(cfg, d, b, rt, reach, false)
    ensures Routed(cfg, d, b, rt[Id(cfg, d, b) := Loopback], reach, true)
  {
    var more := rt[Id(cfg, d, b) := Loopback];
    forall k ensures Route(cfg, d, b, more, reach, true, k) {
      assert Route(cfg, d, b, rt, reach, false, k);
    }
  }

  // ----- a board finishes -----

  lemma PopRouted(cfg: Config, d: Search, b: nat, rt: map<nat, Hop>, reach: nat, self: bool)
    requires cfg.net.Valid() && |d.stack| > 1 && |d.order| > 0 && Routed(cfg, d, b, rt, reach, self)
    requires Linked(cfg, d, |d.stack| - 1) && b != d.stack[|d.stack| - 2].board
    ensures Routed(cfg, Pop(d), b, rt, reach, self)
  {
    forall k ensures Route(cfg, Pop(d), b, rt, reach, self, k) {
      assert Route(cfg, d, b, rt, reach, self, k);
    }
  }

  lemma PopParent(cfg: Config, d: Search, rt: map<nat, Hop>)
    requires cfg.net.Valid() && |d.stack| > 1 && |d.order| > 0 && Linked(cfg, d, |d.stack| - 1)
    requires Top(d).board in d.pos && Top(d).board !in d.last
    requires var b := d.stack[|d.stack| - 2].board;
             Routed(cfg, d, b, rt, d.pos[Top(d).board], true) && d.pos[b] < d.pos[Top(d).board] < |d.order|
    ensures var f := d.stack[|d.stack| - 2];
            Routed(cfg, Pop(d), f.board, rt + RangeRoutes(Id(cfg, d, Top(d).board), cfg.masterId + |d.order| - 1,
                f.iface),
                   |d.order| - 1, true)
  {
    var f, reach := d.stack[|d.stack| - 2], |d.order| - 1;
    var more := rt + RangeRoutes(Id(cfg, d, Top(d).board), cfg.masterId + |d.order| - 1, f.iface);
    forall k ensures Route(cfg, Pop(d), f.board, more, reach, true, k) {
      assert Route(cfg, d, f.board, rt, d.pos[Top(d).board], true, k);
    }
  }

  /** The state after END: only the parent changes, and it routes the finished interval to its child. */
  ghost predicate Merged(cfg: Config, s: State, r: State, v: View)
    requires Shape(cfg, s) && Shape(cfg, r) && |v.d.stack| > 1 && |v.d.order| > 0
  {
    var f, c := v.d.stack[|v.d.stack| - 2], Top(v.d).board;
    && c in v.d.pos && f.board < |s.nodes| && OnlyBoard(s, r, f.board)
    && r.nodes[f.board].rt ==
       s.nodes[f.board].rt + RangeRoutes(Id(cfg, v.d, c), cfg.masterId + |v.d.order| - 1, f.iface)
  }

  lemma PopRoutes(cfg: Config, s: State, r: State, v: View)
    requires DiscoveryInv.Inv(cfg, s, v) && Routes(cfg, s, v) && v.token == Returning([])
    requires Shape(cfg, r) && Merged(cfg, s, r, v)
    ensures Routes(cfg, r, View(Pop(v.d), Scanning))
  {
    hide Numbering, Finished, Passed, Ancestors, Retired, Only, Quiet, Tables, Idlers, Routed, Tracked,
         Knowledge.TableIs, Linked;
    var d, e, n := v.d, Pop(v.d), |v.d.stack| - 1;
    assert Linked(cfg, d, n);
    assert FrameRoutes(cfg, s, v, n);
    assert d.stack[n - 1].board !in d.last && d.pos[d.stack[n - 1].board] < d.pos[d.stack[n].board];
    forall b | b in e.last
      ensures b < |r.nodes| && r.nodes[b].next == cfg.masterId + e.last[b]
              && Routed(cfg, e, b, r.nodes[b].rt, e.last[b], true)
    {
      PopRouted(cfg, d, b, s.nodes[b].rt, e.last[b], true);
    }
    forall j | 0 <= j < |e.stack| ensures FrameRoutes(cfg, r, View(e, Scanning), j) {
      PopFrame(cfg, s, r, v, j);
    }
  }

  lemma PopFrame(cfg: Config, s: State, r: State, v: View, j: nat)
    requires DiscoveryInv.Inv(cfg, s, v) && Routes(cfg, s, v) && v.token == Returning([])
    requires Shape(cfg, r) && Merged(cfg, s, r, v) && j < |v.d.stack| - 1
    ensures FrameRoutes(cfg, r, View(Pop(v.d), Scanning), j)
  {
    hide Finished, Passed, Ancestors, Retired, Only, Quiet, Tables, Idlers, Routed, RetiredRoutes, Knowledge.TableIs,
         Linked, Tracked;
    var d, n := v.d, |v.d.stack| - 1;
    var b := d.stack[j].board;
    assert FrameRoutes(cfg, s, v, j);
    assert Linked(cfg, d, n);
    assert d.pos[d.stack[n - 1].board] < d.pos[d.stack[n].board];
    if j < n - 1 {
      assert d.pos[d.stack[j].board] < d.pos[d.stack[n - 1].board];
      PopRouted(cfg, d, b, s.nodes[b].rt, d.pos[d.stack[j + 1].board], true);
    } else {
      PopParent(cfg, d, s.nodes[b].rt);
    }
  }
}
