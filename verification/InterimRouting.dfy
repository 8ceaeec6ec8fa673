/** Packets sent by the interim tables that discovery leaves behind. */
module InterimRouting {
  import opened Networks
  import opened DepthFirst
  import opened SearchTree
  import opened Discovery
  import opened DiscoveryInv
  import opened DiscoverySteps
  import opened DiscoveryRoutes
  import opened DiscoveryRuns
  import opened DiscoveryTheorems

  /** A packet for id k that is at board b arrives after n hops, each by the table of its board. */
  ghost predicate Arrives(cfg: Config, s: State, b: nat, k: nat, n: nat)
    requires cfg.net.Valid() && Shape(cfg, s)
    decreases n
  {
    && b < |s.nodes| && k in s.nodes[b].rt
    && match s.nodes[b].rt[k]
       case Loopback => n == 0 && s.nodes[b].id == k
       case Via(i) => n > 0 && Port(b, i) in cfg.net.wire && Arrives(cfg, s, cfg.net.wire[Port(b, i)].board, k, n - 1)
  }

  /** Going from y over its interface to its parent, and so on, n times, leads to x. */
  ghost predicate Climbs(cfg: Config, s: State, y: nat, x: nat, n: nat)
    requires cfg.net.Valid() && Shape(cfg, s)
    decreases n
  {
    if n == 0 then x == y
    else
      && y != cfg.master && y < |s.nodes| && Port(y, s.nodes[y].up) in cfg.net.wire
      && Climbs(cfg, s, cfg.net.wire[Port(y, s.nodes[y].up)].board, x, n - 1)
  }

  /** y is x or below x in the search tree. */
  ghost predicate Descends(cfg: Config, s: State, y: nat, x: nat)
    requires cfg.net.Valid() && Shape(cfg, s)
  {
    exists n :: Climbs(cfg, s, y, x, n)
  }

  /** y lies in the interval of ids that x handed out, its own first. */
  predicate Within(s: State, x: nat, y: nat)
    requires x < |s.nodes| && y < |s.nodes|
  {
    s.nodes[x].id <= s.nodes[y].id <= s.nodes[x].next
  }

  ghost function LastPos(d: Search, b: nat): int {
    if b in d.last then d.last[b] else |d.order| - 1
  }

  /** The search has ended and every board's table is its final one. */
  ghost predicate Settled(cfg: Config, s: State, d: Search) {
    && cfg.net.Valid() && Shape(cfg, s) && |d.order| > 0
    && (forall b :: 0 <= b < |s.nodes| ==> SettledAt(cfg, s, d, b))
    && Tree(cfg, d) && (forall b :: b in d.pos ==> b < |s.nodes|)
    && cfg.master in d.pos && d.pos[cfg.master] == 0 && cfg.master !in d.last
    && (forall b :: b in d.pos ==> d.pos[b] <= LastPos(d, b) < |d.order|)
    && (forall a, b :: a in d.pos && b in d.pos && d.pos[a] == d.pos[b] ==> a == b)
  }

  ghost predicate SettledAt(cfg: Config, s: State, d: Search, b: nat)
    requires cfg.net.Valid() && Shape(cfg, s) && |d.order| > 0 && b < |s.nodes|
  {
    && b in d.pos && s.nodes[b].id == Id(cfg, d, b) && s.nodes[b].next == cfg.masterId + LastPos(d, b)
    && (b in d.last <==> b != cfg.master) && (b != cfg.master ==> b in d.up && s.nodes[b].up == d.up[b])
    && LastPos(d, b) >= 0 && Routed(cfg, d, b, s.nodes[b].rt, LastPos(d, b), true)
  }

  lemma BoardSettled(cfg: Config, s: State, v: View, b: nat)
    requires cfg.Valid() && Good(cfg, s, v) && v.token.Halted? && b < cfg.net.boards
    ensures |v.d.order| > 0 && SettledAt(cfg, s, v.d, b)
  {
    hide Finished, Passed, Tables, Ancestors, Idlers, Tree, Renumbering.Rest, Renumbering.Visit, Linked, Routed,
         Numbering, Tracked;
    HaltedDone(cfg, s, v);
    HaltedIds(cfg, s, v, b);
    AboveOthers(cfg, v.d);
    assert FrameRoutes(cfg, s, v, 0);
  }

  lemma DoneSettled(cfg: Config, s: State) returns (d: Search)
    requires cfg.Valid() && Reachable(cfg, s) && AllDone(cfg, s)
    ensures Settled(cfg, s, d)
  {
    hide Finished, Passed, Tables, Ancestors, Idlers, Tree, Renumbering.Rest, Renumbering.Visit, Linked, Routed, Routes;
    var v := DoneHalted(cfg, s);
    d := v.d;
    HaltedDone(cfg, s, v);
    MasterCounts(cfg, s, v);
    forall b | 0 <= b < |s.nodes| ensures SettledAt(cfg, s, d, b) {
      BoardSettled(cfg, s, v, b);
    }
    forall a, b | a in d.pos && b in d.pos && d.pos[a] == d.pos[b] ensures a == b {
      Positions(cfg, d, a, b);
    }
  }

  // ----- downwards -----

  lemma {:induction false} GoesDown(cfg: Config, s: State, d: Search, x: nat, y: nat) returns (n: nat)
    requires Settled(cfg, s, d) && x in d.pos && y in d.pos && d.pos[x] <= d.pos[y] <= LastPos(d, x)
    ensures Arrives(cfg, s, x, s.nodes[y].id, n)
    decreases d.pos[y] - d.pos[x]
  {
    hide Tree;
    var k := s.nodes[y].id;
    assert SettledAt(cfg, s, d, x) && SettledAt(cfg, s, d, y);
    assert Route(cfg, d, x, s.nodes[x].rt, LastPos(d, x), true, k);
    if x == y {
      n := 0;
    } else {
      var c := cfg.net.wire[Port(x, s.nodes[x].rt[k].iface)].board;
      ChildOf(cfg, d, x, s.nodes[x].rt[k].iface);
      assert SettledAt(cfg, s, d, c);
      var m := GoesDown(cfg, s, d, c, y);
      n := m + 1;
    }
  }

  /** The far end of a downward hop is a child of x. */
  lemma ChildOf(cfg: Config, d: Search, x: nat, i: nat)
    requires cfg.net.Valid() && Tree(cfg, d) && Port(x, i) in cfg.net.wire && x in d.pos
    requires var q := cfg.net.wire[Port(x, i)]; q.board in d.pos && q.board in d.up && d.up[q.board] == q.iface
    ensures d.pos[x] < d.pos[cfg.net.wire[Port(x, i)].board]
  {
    var c := cfg.net.wire[Port(x, i)].board;
    assert Child(cfg, d, c);
  }

  // ----- upwards -----

  /** Every board but the master has its parent in every interval that holds it and is not its own. */
  lemma ParentWithin(cfg: Config, d: Search, x: nat, y: nat)
    requires Tree(cfg, d) && x in d.pos && y in d.pos && x != cfg.master && d.pos[y] < d.pos[x] <= LastPos(d, y)
    ensures HasParent(cfg, d, x) && d.pos[y] <= d.pos[Parent(cfg, d, x)] < d.pos[x]
  {
    assert Child(cfg, d, x);
  }

  lemma {:induction false} GoesUp(cfg: Config, s: State, d: Search, x: nat, y: nat) returns (n: nat)
    requires Settled(cfg, s, d) && x in d.pos && y in d.pos && d.pos[y] <= d.pos[x] <= LastPos(d, y)
    ensures Arrives(cfg, s, x, s.nodes[y].id, n)
    decreases d.pos[x]
  {
    hide Tree;
    if x == y {
      n := GoesDown(cfg, s, d, x, y);
    } else {
      ParentWithin(cfg, d, x, y);
      assert SettledAt(cfg, s, d, x) && SettledAt(cfg, s, d, y);
      assert Route(cfg, d, x, s.nodes[x].rt, LastPos(d, x), true, s.nodes[y].id);
      var m := GoesUp(cfg, s, d, Parent(cfg, d, x), y);
      n := m + 1;
    }
  }

  // ----- and nowhere else -----

  /** The intervals are nested along the tree. */
  lemma Nested(cfg: Config, s: State, d: Search, x: nat, y: nat)
    requires Settled(cfg, s, d) && x in d.pos && y in d.pos && x != cfg.master
    requires HasParent(cfg, d, x) && d.pos[y] <= d.pos[Parent(cfg, d, x)] <= LastPos(d, y)
    ensures d.pos[y] <= d.pos[x] <= LastPos(d, y)
  {
    var p := Parent(cfg, d, x);
    assert SettledAt(cfg, s, d, x) && SettledAt(cfg, s, d, p) && SettledAt(cfg, s, d, y);
    if y != cfg.master {
      assert Enclosed(d, y, p) && Child(cfg, d, x);
    }
  }

  lemma {:induction false} ArrivesRelated(cfg: Config, s: State, d: Search, x: nat, y: nat, n: nat)
    requires Settled(cfg, s, d) && x in d.pos && y in d.pos && Arrives(cfg, s, x, s.nodes[y].id, n)
    ensures d.pos[x] <= d.pos[y] <= LastPos(d, x) || d.pos[y] <= d.pos[x] <= LastPos(d, y)
    decreases n
  {
    hide Tree;
    var k := s.nodes[y].id;
    assert SettledAt(cfg, s, d, x) && SettledAt(cfg, s, d, y);
    assert Route(cfg, d, x, s.nodes[x].rt, LastPos(d, x), true, k);
    if x != cfg.master && k <= Id(cfg, d, Parent(cfg, d, x)) {
      var p := Parent(cfg, d, x);
      ArrivesRelated(cfg, s, d, p, y, n - 1);
      Nested(cfg, s, d, x, y);
    }
  }

  // ----- intervals and the tree -----

  lemma {:induction false} ClimbTo(cfg: Config, s: State, d: Search, x: nat, y: nat) returns (n: nat)
    requires Settled(cfg, s, d) && x in d.pos && y in d.pos && d.pos[x] <= d.pos[y] <= LastPos(d, x)
    ensures Climbs(cfg, s, y, x, n)
    decreases d.pos[y]
  {
    hide Tree;
    if x == y {
      n := 0;
    } else {
      ParentWithin(cfg, d, y, x);
      assert SettledAt(cfg, s, d, y);
      var m := ClimbTo(cfg, s, d, x, Parent(cfg, d, y));
      n := m + 1;
    }
  }

  lemma {:induction false} ClimbWithin(cfg: Config, s: State, d: Search, x: nat, y: nat, n: nat)
    requires Settled(cfg, s, d) && x in d.pos && y in d.pos && Climbs(cfg, s, y, x, n)
    ensures d.pos[x] <= d.pos[y] <= LastPos(d, x)
    decreases n
  {
    hide Settled;
    if n == 0 {
      OwnInterval(cfg, s, d, x);
    } else {
      UpIsParent(cfg, s, d, y);
      ClimbWithin(cfg, s, d, x, Parent(cfg, d, y), n - 1);
      Nested(cfg, s, d, y, x);
    }
  }

  lemma OwnInterval(cfg: Config, s: State, d: Search, x: nat)
    requires Settled(cfg, s, d) && x in d.pos
    ensures d.pos[x] <= LastPos(d, x)
  {
  }

  lemma UpIsParent(cfg: Config, s: State, d: Search, y: nat)
    requires Settled(cfg, s, d) && y in d.pos && y != cfg.master
    ensures y < |s.nodes| && HasParent(cfg, d, y) && Parent(cfg, d, y) in d.pos && s.nodes[y].up == d.up[y]
  {
    assert SettledAt(cfg, s, d, y) && Child(cfg, d, y);
  }

  /** Each subtree of the search tree owns exactly the ids from its root's own to the last its root
      has heard of. */
  lemma WithinIff(cfg: Config, s: State, x: nat, y: nat)
    requires cfg.Valid() && Reachable(cfg, s) && AllDone(cfg, s) && x < cfg.net.boards && y < cfg.net.boards
    ensures Within(s, x, y) <==> Descends(cfg, s, y, x)
  {
    hide Tree;
    var d := DoneSettled(cfg, s);
    assert SettledAt(cfg, s, d, x) && SettledAt(cfg, s, d, y);
    if Within(s, x, y) {
      var n := ClimbTo(cfg, s, d, x, y);
    }
    if n :| Climbs(cfg, s, y, x, n) {
      ClimbWithin(cfg, s, d, x, y, n);
    }
  }

  lemma ArrivesWithin(cfg: Config, s: State, x: nat, y: nat)
    requires cfg.Valid() && Reachable(cfg, s) && AllDone(cfg, s) && x < cfg.net.boards && y < cfg.net.boards
    ensures (exists n :: Arrives(cfg, s, x, s.nodes[y].id, n)) <==> Within(s, x, y) || Within(s, y, x)
  {
    hide Tree;
    var d := DoneSettled(cfg, s);
    assert SettledAt(cfg, s, d, x) && SettledAt(cfg, s, d, y);
    if Within(s, x, y) {
      var n := GoesDown(cfg, s, d, x, y);
    } else if Within(s, y, x) {
      var n := GoesUp(cfg, s, d, x, y);
    }
    if n :| Arrives(cfg, s, x, s.nodes[y].id, n) {
      ArrivesRelated(cfg, s, d, x, y, n);
    }
  }

  /** By the interim tables a packet from x arrives at y exactly when one of the two is the other or
      below it in the search tree. */
  lemma ArrivesIff(cfg: Config, s: State, x: nat, y: nat)
    requires cfg.Valid() && Reachable(cfg, s) && AllDone(cfg, s) && x < cfg.net.boards && y < cfg.net.boards
    ensures (exists n :: Arrives(cfg, s, x, s.nodes[y].id, n)) <==> Descends(cfg, s, x, y) || Descends(cfg, s, y, x)
  {
    hide Within, Descends, Reachable, AllDone, Arrives;
    ArrivesWithin(cfg, s, x, y);
    WithinIff(cfg, s, x, y);
    WithinIff(cfg, s, y, x);
  }

  /** The master reaches every board and every board reaches the master: the routing tables can be
      delivered and acknowledged. */
  lemma MasterReaches(cfg: Config, s: State, b: nat)
    requires cfg.Valid() && Reachable(cfg, s) && AllDone(cfg, s) && b < cfg.net.boards
    ensures exists n :: Arrives(cfg, s, cfg.master, s.nodes[b].id, n)
    ensures exists n :: Arrives(cfg, s, b, s.nodes[cfg.master].id, n)
  {
    IdsExact(cfg, s);
    ArrivesWithin(cfg, s, cfg.master, b);
    ArrivesWithin(cfg, s, b, cfg.master);
  }

  // ----- two boards that cannot talk -----

  /** Boards 1 and 2, each with one cable to the master. */
  function Star(): Config {
    Config(Net(3, 2, map[Port(0, 0) := Port(1, 0), Port(1, 0) := Port(0, 0),
                         Port(0, 1) := Port(2, 0), Port(2, 0) := Port(0, 1)]),
           0, 1, 4)
  }

  lemma StarValid()
    ensures Star().Valid()
  {
    var net := Star().net;
    forall s: set<nat> | 0 in s && net.Closed(s) ensures forall b :: 0 <= b < net.boards ==> b in s {
      assert net.wire[Port(0, 0)].board in s && net.wire[Port(0, 1)].board in s;
    }
  }

  /** Climbing from a board of the star leads to the master at most. */
  lemma StarClimb(s: State, y: nat, x: nat, n: nat)
    requires Star().net.Valid() && Shape(Star(), s) && y < 3 && Climbs(Star(), s, y, x, n)
    ensures x == y || x == 0
    decreases n
  {
    if n > 0 {
      var p := Port(y, s.nodes[y].up);
      assert p in Star().net.wire && Star().net.wire[p].board == 0;
      StarClimb(s, 0, x, n - 1);
    }
  }

  /** When discovery has ended there, no packet from board 1 arrives at board 2. */
  lemma SiblingsCut() returns (s: State)
    ensures Star().Valid() && Reachable(Star(), s) && AllDone(Star(), s)
    ensures !exists n :: Arrives(Star(), s, 1, s.nodes[2].id, n)
  {
    StarValid();
    s := SomeEnd(Star());
    ArrivesIff(Star(), s, 1, 2);
    if n :| Climbs(Star(), s, 1, 2, n) {
      StarClimb(s, 1, 2, n);
    }
    if n :| Climbs(Star(), s, 2, 1, n) {
      StarClimb(s, 2, 1, n);
    }
  }
}
