/** The recursive renumbering that the protocol's own test compares discovery with, in place on its
    arrays. */
module ExpectedTopology {
  import opened FiniteSets
  import opened Networks
  import opened DepthFirst
  import opened Renumbering
  import opened RenumberingFacts
  import opened TopologyTables
  import D = Discovery
  import DR = DiscoveryRuns
  import DT = DiscoveryTheorems

  /** start[b, i] is the board behind interface i of b, or `none`. */
  ghost predicate Wired(net: Net, start: array2<nat>, none: nat)
    reads start
  {
    && net.Valid() && net.boards <= start.Length0 && net.ifaces == start.Length1 && net.boards <= none
    && forall b: nat, i: nat :: b < net.boards && i < net.ifaces ==>
         start[b, i] == if Port(b, i) in net.wire then net.wire[Port(b, i)].board else none
  }

  /** The contents of a matrix. */
  ghost function Grid(m: array2<nat>): (g: seq<seq<nat>>)
    reads m
    ensures |g| == m.Length0 && forall b :: 0 <= b < |g| ==> |g[b]| == m.Length1
    ensures forall b, j :: 0 <= b < m.Length0 && 0 <= j < m.Length1 ==> g[b][j] == m[b, j]
  {
    seq(m.Length0, b requires 0 <= b < m.Length0 reads m =>
      seq(m.Length1, j requires 0 <= j < m.Length1 reads m => m[b, j]))
  }

  function SetCell(g: seq<seq<nat>>, b: nat, i: nat, x: nat): seq<seq<nat>>
    requires b < |g| && i < |g[b]|
  {
    var row: seq<nat> := g[b][i := x];
    g[b := row]
  }

  method WriteCell(m: array2<nat>, b: nat, i: nat, x: nat)
    requires b < m.Length0 && i < m.Length1
    modifies m
    ensures Grid(m) == SetCell(old(Grid(m)), b, i, x)
  {
    m[b, i] := x;
    var g, h := Grid(m), SetCell(old(Grid(m)), b, i, x);
    forall c | 0 <= c < |g| ensures g[c] == h[c] {
      assert forall j :: 0 <= j < m.Length1 ==> g[c][j] == h[c][j];
    }
  }

  /** The numbers handed out so far. */
  ghost function Numbered(matches: seq<nat>, boards: nat, none: nat): (m: map<nat, nat>)
    requires boards <= |matches|
    ensures forall b: nat :: b in m <==> b < boards && matches[b] != none
    ensures forall b: nat :: b in m ==> m[b] == matches[b]
  {
    map b: nat | 0 <= b < boards && matches[b] != none :: matches[b]
  }

  lemma NumberedNext(matches: seq<nat>, boards: nat, none: nat, c: nat, x: nat)
    requires c < boards <= |matches| && x != none
    ensures Numbered(matches[c := x], boards, none) == Numbered(matches, boards, none)[c := x]
  {
  }

  /** Row b shows the new number of every neighbour behind an interface below i. */
  ghost predicate Renamed(net: Net, g: seq<seq<nat>>, of: map<nat, nat>, b: nat, i: nat)
    requires net.Valid() && b < |g| && |g[b]| == net.ifaces
  {
    forall j: nat :: j < i && j < net.ifaces && Port(b, j) in net.wire ==>
      net.wire[Port(b, j)].board in of && g[b][j] == of[net.wire[Port(b, j)].board]
  }

  ghost predicate Arrays(net: Net, start: array2<nat>, end: array2<nat>, matches: array<nat>, none: nat)
    reads start
  {
    && Wired(net, start, none) && end.Length0 == start.Length0 && end.Length1 == start.Length1
    && net.boards <= matches.Length
    && start != end && (start as object) != matches && (end as object) != matches
  }

  ghost predicate Extends(m: map<nat, nat>, n: map<nat, nat>) {
    forall b :: b in m ==> b in n && n[b] == m[b]
  }

  ghost predicate Sized(net: Net, g: seq<seq<nat>>) {
    net.Valid() && net.boards <= |g| && forall b :: 0 <= b < |g| ==> |g[b]| == net.ifaces
  }

  /** The cells of unconnected interfaces, and of rows that no board has, are the same in g and h. */
  ghost predicate Spared(net: Net, g: seq<seq<nat>>, h: seq<seq<nat>>)
    requires Sized(net, g) && Sized(net, h) && |h| == |g|
  {
    forall b: nat, j: nat :: b < |g| && j < net.ifaces && Port(b, j) !in net.wire ==> h[b][j] == g[b][j]
  }

  /** From (g, m) to (h, n): numbers stay, and so do the rows of numbered boards other than `node` and
      all cells that stand for no cable. */
  ghost predicate Kept(net: Net, g: seq<seq<nat>>, m: map<nat, nat>, h: seq<seq<nat>>, n: map<nat, nat>, node: nat) {
    && Sized(net, g) && Sized(net, h) && |h| == |g| && Extends(m, n) && Spared(net, g, h)
    && forall b: nat :: b < net.boards && b in m && b != node ==> h[b] == g[b]
  }

  /** The boards numbered since m have complete rows. */
  ghost predicate NewRenamed(net: Net, g: seq<seq<nat>>, m: map<nat, nat>, n: map<nat, nat>, node: nat)
    requires Sized(net, g)
  {
    forall b: nat :: b < net.boards && b in n && b !in m && b != node ==> Renamed(net, g, n, b, net.ifaces)
  }

  ghost function Now(net: Net, matches: array<nat>, max: nat, none: nat): Numbers
    requires net.boards <= matches.Length
    reads matches
  {
    Numbers(Numbered(matches[..], net.boards, none), max)
  }

  lemma FewerLeft(net: Net, of: map<nat, nat>, c: nat, x: nat)
    requires c !in of && exists p :: p in net.wire && p.board == c
    ensures |Unnumbered(net, of[c := x])| == |Unnumbered(net, of)| - 1
  {
    assert Unnumbered(net, of[c := x]) == Unnumbered(net, of) - {c};
    var p :| p in net.wire && p.board == c;
    assert c in Unnumbered(net, of);
  }

  lemma Shrinks(net: Net, m: map<nat, nat>, n: map<nat, nat>)
    requires Extends(m, n)
    ensures Unnumbered(net, n) <= Unnumbered(net, m)
  {
  }

  lemma VisitEnd(net: Net, b: nat, n: Numbers)
    requires net.Valid()
    ensures Visit(net, b, net.ifaces, n) == n
  {
  }

  lemma VisitStep(net: Net, b: nat, i: nat, n: Numbers)
    requires net.Valid() && i < net.ifaces
    ensures Visit(net, b, i, n) ==
            if Port(b, i) in net.wire && net.wire[Port(b, i)].board !in n.of
            then Visit(net, b, i + 1, Visit(net, net.wire[Port(b, i)].board, 0,
                                            Numbers(n.of[net.wire[Port(b, i)].board := n.max + 1], n.max + 1)))
            else Visit(net, b, i + 1, n)
  {
  }

  /** The state of the visit to `node` at interface i, compared with its start (g0, n0). */
  ghost predicate Visiting(net: Net, g0: seq<seq<nat>>, n0: Numbers, g: seq<seq<nat>>, n: Numbers, node: nat, i: nat) {
    && Kept(net, g0, n0.of, g, n.of, node) && node < net.boards && i <= net.ifaces
    && Visit(net, node, i, n) == Visit(net, node, 0, n0)
    && n.max + |Unnumbered(net, n.of)| <= n0.max + |Unnumbered(net, n0.of)|
    && Renamed(net, g, n.of, node, i) && NewRenamed(net, g, n0.of, n.of, node)
  }

  /** An interface that leads nowhere, or to a numbered board whose number enters the row. */
  lemma PassOne(net: Net, g0: seq<seq<nat>>, n0: Numbers, g: seq<seq<nat>>, n: Numbers, node: nat, i: nat, x: nat)
    requires Visiting(net, g0, n0, g, n, node, i) && i < net.ifaces
    requires Port(node, i) in net.wire ==>
               net.wire[Port(node, i)].board in n.of && x == n.of[net.wire[Port(node, i)].board]
    ensures Port(node, i) !in net.wire ==> Visiting(net, g0, n0, g, n, node, i + 1)
    ensures Port(node, i) in net.wire ==> Visiting(net, g0, n0, SetCell(g, node, i, x), n, node, i + 1)
  {
    hide Visit, Unnumbered;
    VisitStep(net, node, i, n);
    var h := SetCell(g, node, i, x);
    forall b: nat | b < net.boards && b in n.of && b !in n0.of && b != node
      ensures Renamed(net, h, n.of, b, net.ifaces)
    {
      assert Renamed(net, g, n.of, b, net.ifaces);
    }
  }

  /** A visit to the new board c behind interface i, from its start (h, m) to its end (k, o). */
  lemma VisitOne(net: Net, g0: seq<seq<nat>>, n0: Numbers, g: seq<seq<nat>>, n: Numbers, node: nat, i: nat,
                 h: seq<seq<nat>>, m: Numbers, k: seq<seq<nat>>, o: Numbers, c: nat)
    requires Visiting(net, g0, n0, g, n, node, i) && i < net.ifaces && node in n.of
    requires Port(node, i) in net.wire && c == net.wire[Port(node, i)].board && c !in n.of && c < net.boards
    requires m == Numbers(n.of[c := n.max + 1], n.max + 1) && h == SetCell(g, node, i, n.max + 1)
    requires Visiting(net, h, m, k, o, c, net.ifaces)
    ensures Visiting(net, g0, n0, k, o, node, i + 1)
  {
    hide Visit, Unnumbered;
    VisitStep(net, node, i, n);
    VisitEnd(net, c, o);
    assert net.wire[Port(node, i)] in net.wire;
    FewerLeft(net, n.of, c, n.max + 1);
    assert k[node] == h[node];
    forall b: nat | b < net.boards && b in o.of && b !in n0.of && b != node
      ensures Renamed(net, k, o.of, b, net.ifaces)
    {
      if b in n.of {
        assert Renamed(net, g, n.of, b, net.ifaces);
      }
    }
  }

  /** Board c, behind interface i of `node`, gets the number x. */
  method Assign(ghost net: Net, end: array2<nat>, matches: array<nat>, node: nat, i: nat, c: nat, x: nat,
                ghost none: nat)
    requires (end as object) != matches && node < end.Length0 && i < end.Length1 && c < net.boards <= matches.Length
             && x != none
    modifies end, matches
    ensures Grid(end) == SetCell(old(Grid(end)), node, i, x) && matches[..] == old(matches[..])[c := x]
    ensures Numbered(matches[..], net.boards, none) == Numbered(old(matches[..]), net.boards, none)[c := x]
  {
    matches[c] := x;
    WriteCell(end, node, i, x);
    NumberedNext(old(matches[..]), net.boards, none, c, x);
  }

  /** Goes through the interfaces of `node`; an unnumbered neighbour gets the next number and is
      visited at once. */
  method Intermediate(ghost net: Net, start: array2<nat>, end: array2<nat>, matches: array<nat>,
                      node: nat, max0: nat, none: nat)
    returns (max: nat)
    requires Arrays(net, start, end, matches, none) && node < net.boards && matches[node] != none
    requires max0 + |Unnumbered(net, Now(net, matches, max0, none).of)| < none
    modifies end, matches
    ensures Visiting(net, old(Grid(end)), old(Now(net, matches, max0, none)), Grid(end),
                     Now(net, matches, max, none), node, net.ifaces)
    decreases Unnumbered(net, Now(net, matches, max0, none).of)
  {
    hide Visit, Unnumbered, Visiting;
    max := max0;
    ghost var g0, n0 := Grid(end), Now(net, matches, max0, none);
    assert Visiting(net, g0, n0, g0, n0, node, 0) by {
      StartVisit(net, g0, n0, node);
    }
    for i := 0 to start.Length1
      invariant Arrays(net, start, end, matches, none)
      invariant Visiting(net, g0, n0, Grid(end), Now(net, matches, max, none), node, i)
    {
      ghost var g, n := Grid(end), Now(net, matches, max, none);
      Facts(net, g0, n0, g, n, node, i);
      var c := start[node, i];
      if c == none {
        PassOne(net, g0, n0, g, n, node, i, 0);
      } else if matches[c] != none {
        PassOne(net, g0, n0, g, n, node, i, matches[c]);
        WriteCell(end, node, i, matches[c]);
      } else {
        Smaller(net, n0, n, c, node, i);
        max := max + 1;
        Assign(net, end, matches, node, i, c, max, none);
        ghost var h, m := Grid(end), Now(net, matches, max, none);
        max := Intermediate(net, start, end, matches, c, max, none);
        VisitOne(net, g0, n0, g, n, node, i, h, m, Grid(end), Now(net, matches, max, none), c);
      }
    }
  }

  lemma StartVisit(net: Net, g: seq<seq<nat>>, n: Numbers, node: nat)
    requires Sized(net, g) && node < net.boards
    ensures Visiting(net, g, n, g, n, node, 0)
  {
  }

  lemma Facts(net: Net, g0: seq<seq<nat>>, n0: Numbers, g: seq<seq<nat>>, n: Numbers, node: nat, i: nat)
    requires Visiting(net, g0, n0, g, n, node, i)
    ensures Extends(n0.of, n.of) && n.max + |Unnumbered(net, n.of)| <= n0.max + |Unnumbered(net, n0.of)|
  {
  }

  lemma Smaller(net: Net, n0: Numbers, n: Numbers, c: nat, node: nat, i: nat)
    requires net.Valid() && Extends(n0.of, n.of) && c !in n.of
    requires Port(node, i) in net.wire && net.wire[Port(node, i)].board == c
    ensures Unnumbered(net, n.of[c := n.max + 1]) < Unnumbered(net, n0.of)
    ensures |Unnumbered(net, n.of[c := n.max + 1])| == |Unnumbered(net, n.of)| - 1
  {
    assert net.wire[Port(node, i)] in net.wire;
    FewerLeft(net, n.of, c, n.max + 1);
    Fewer(net, n.of, n.of[c := n.max + 1], c);
    Shrinks(net, n0.of, n.of);
  }

  /** x is what the row of board b shows at interface j: the number of the board behind it, or `none`. */
  ghost predicate CellIs(net: Net, of: map<nat, nat>, b: nat, j: nat, x: nat, none: nat)
    requires net.Valid()
  {
    if Port(b, j) in net.wire then net.wire[Port(b, j)].board in of && x == of[net.wire[Port(b, j)].board]
    else x == none
  }

  /** Rows that no board has show nothing. */
  ghost predicate Spare(net: Net, g: seq<seq<nat>>, none: nat)
    requires Sized(net, g)
  {
    forall r, j :: net.boards <= r < |g| && 0 <= j < net.ifaces ==> g[r][j] == none
  }

  /** Row of[b] shows what is behind the interfaces of b, for the boards b below `boards`. */
  ghost predicate Moved(net: Net, of: map<nat, nat>, g: seq<seq<nat>>, boards: nat, none: nat) {
    && Sized(net, g) && Spare(net, g, none)
    && forall b: nat, j: nat :: b < boards && j < net.ifaces ==> MovedCell(net, of, g, b, j, none)
  }

  ghost predicate MovedCell(net: Net, of: map<nat, nat>, g: seq<seq<nat>>, b: nat, j: nat, none: nat)
    requires Sized(net, g) && j < net.ifaces
  {
    b in of && of[b] < |g| && CellIs(net, of, b, j, g[of[b]][j], none)
  }

  /** The renumbering of a connected topology, and then the rows moved to the new numbers: the matrix
      the test expects discovery to arrive at. */
  method ComputeFinalTopology(ghost net: Net, start: array2<nat>, end: array2<nat>, matches: array<nat>, boards: nat,
                              none: nat)
    returns (max: nat)
    requires Arrays(net, start, end, matches, none) && boards == net.boards && net.Connected(0) && 0 < net.boards < none
    requires forall b :: 0 <= b < matches.Length ==> matches[b] == if b == 0 then 0 else none
    requires forall b, j :: 0 <= b < end.Length0 && 0 <= j < end.Length1 ==> end[b, j] == none
    modifies end, matches
    ensures Now(net, matches, max, none) == Visit(net, 0, 0, Numbers(map[0 := 0], 0))
    ensures Moved(net, Now(net, matches, max, none).of, Grid(end), boards, none)
  {
    hide Visit, Unnumbered, Net.Connected, Moved, Shows;
    max := NumberAll(net, start, end, matches, none);
    ghost var n := Now(net, matches, max, none);
    MatchFacts(net, matches[..], none, n);
    MoveRows(net, end, matches, boards, n.of, none);
  }

  method NumberAll(ghost net: Net, start: array2<nat>, end: array2<nat>, matches: array<nat>, none: nat)
    returns (max: nat)
    requires Arrays(net, start, end, matches, none) && 0 < net.boards < none && net.Connected(0)
    requires forall b :: 0 <= b < matches.Length ==> matches[b] == if b == 0 then 0 else none
    requires forall b, j :: 0 <= b < end.Length0 && 0 <= j < end.Length1 ==> end[b, j] == none
    modifies end, matches
    ensures Now(net, matches, max, none) == Visit(net, 0, 0, Numbers(map[0 := 0], 0))
    ensures Sized(net, Grid(end)) && Shows(net, Grid(end), Now(net, matches, max, none).of, none)
  {
    hide Visit, Unnumbered, Net.Connected, Visiting, Shows;
    assert Now(net, matches, 0, none).of == map[0 := 0];
    StartBound(net, map[0 := 0]);
    max := Intermediate(net, start, end, matches, 0, 0, none);
    EndFacts(net, old(Grid(end)), Grid(end), Now(net, matches, max, none), none);
  }

  lemma MatchFacts(net: Net, matches: seq<nat>, none: nat, n: Numbers)
    requires net.Valid() && net.Connected(0) && net.boards <= |matches| && n.of == Numbered(matches, net.boards, none)
    requires n == Visit(net, 0, 0, Numbers(map[0 := 0], 0))
    ensures forall b: nat :: b < net.boards ==> b in n.of && n.of[b] == matches[b] < net.boards
    ensures forall b, c :: 0 <= b < c < net.boards ==> matches[b] != matches[c]
  {
    hide Visit, Net.Connected;
    VisitComplete(Config(net, 0, 0, net.boards));
  }

  /** Row b of the copy becomes the row of b's number, for each b. */
  method MoveRows(ghost net: Net, end: array2<nat>, matches: array<nat>, boards: nat, ghost of: map<nat, nat>,
                  ghost none: nat)
    requires Sized(net, Grid(end)) && boards == net.boards <= matches.Length && (end as object) != matches
    requires forall b: nat :: b < boards ==> b in of && of[b] == matches[b] < boards
    requires forall b, c :: 0 <= b < c < boards ==> matches[b] != matches[c]
    requires Shows(net, Grid(end), of, none)
    modifies end
    ensures Moved(net, of, Grid(end), boards, none)
  {
    var copy := new nat[end.Length0, end.Length1](
      (i, j) requires 0 <= i < end.Length0 && 0 <= j < end.Length1 reads end => end[i, j]);
    ghost var g := Grid(copy);
    assert g == Grid(end) by {
      forall b | 0 <= b < |g| ensures g[b] == Grid(end)[b] {
        assert forall j :: 0 <= j < end.Length1 ==> g[b][j] == Grid(end)[b][j];
      }
    }
    for b := 0 to boards
      invariant Grid(copy) == g && Moved(net, of, Grid(end), b, none)
    {
      MovedNext(net, of, Grid(end), g, b, none);
      CopyRow(end, copy, matches[b], b);
    }
  }

  method CopyRow(end: array2<nat>, copy: array2<nat>, row: nat, b: nat)
    requires end != copy && end.Length0 == copy.Length0 && end.Length1 == copy.Length1 && row < end.Length0
             && b < end.Length0
    modifies end
    ensures Grid(end) == old(Grid(end))[row := Grid(copy)[b]] && Grid(copy) == old(Grid(copy))
  {
    for j := 0 to end.Length1
      invariant forall i, k :: 0 <= i < end.Length0 && 0 <= k < end.Length1 ==>
                  end[i, k] == if i == row && k < j then copy[b, k] else old(end[i, k])
    {
      end[row, j] := copy[b, j];
    }
    var g, h := Grid(end), old(Grid(end))[row := Grid(copy)[b]];
    forall c | 0 <= c < |g| ensures g[c] == h[c] {
      assert forall j :: 0 <= j < end.Length1 ==> g[c][j] == h[c][j];
    }
    forall c | 0 <= c < copy.Length0 ensures Grid(copy)[c] == old(Grid(copy))[c] {
      assert forall j :: 0 <= j < end.Length1 ==> Grid(copy)[c][j] == old(Grid(copy))[c][j];
    }
  }

  /** Every row shows what is behind the interfaces of its board. */
  ghost predicate Shows(net: Net, g: seq<seq<nat>>, of: map<nat, nat>, none: nat)
    requires Sized(net, g)
  {
    && Spare(net, g, none)
    && forall b: nat, j: nat :: b < net.boards && j < net.ifaces ==> CellIs(net, of, b, j, g[b][j], none)
  }

  lemma MovedNext(net: Net, of: map<nat, nat>, h: seq<seq<nat>>, g: seq<seq<nat>>, b: nat, none: nat)
    requires Sized(net, g) && Shows(net, g, of, none) && Moved(net, of, h, b, none) && b < net.boards && |h| == |g|
    requires forall c: nat :: c < net.boards ==> c in of && of[c] < net.boards
    requires forall c, d :: 0 <= c < d < net.boards ==> of[c] != of[d]
    ensures Moved(net, of, h[of[b] := g[b]], b + 1, none)
  {
    hide CellIs;
    var k := h[of[b] := g[b]];
    forall c: nat, j: nat | c < b + 1 && j < net.ifaces ensures MovedCell(net, of, k, c, j, none) {
      assert c < b ==> MovedCell(net, of, h, c, j, none);
    }
  }

  /** At the end of the visit to board 0 every row is renamed. */
  lemma EndFacts(net: Net, g0: seq<seq<nat>>, g: seq<seq<nat>>, n: Numbers, none: nat)
    requires Visiting(net, g0, Numbers(map[0 := 0], 0), g, n, 0, net.ifaces) && net.Connected(0)
    requires forall b, j :: 0 <= b < |g0| && 0 <= j < net.ifaces ==> g0[b][j] == none
    ensures n == Visit(net, 0, 0, Numbers(map[0 := 0], 0)) && Sized(net, g) && Shows(net, g, n.of, none)
  {
    hide Unnumbered, Renamed, Shows, Visit, Net.Connected, Spared;
    VisitEnd(net, 0, n);
    VisitComplete(Config(net, 0, 0, net.boards));
    AllRenamed(net, g0, g, n.of, none);
  }

  lemma AllRenamed(net: Net, g0: seq<seq<nat>>, g: seq<seq<nat>>, of: map<nat, nat>, none: nat)
    requires Sized(net, g0) && Sized(net, g) && |g| == |g0| && Spared(net, g0, g)
    requires forall b, j :: 0 <= b < |g0| && 0 <= j < net.ifaces ==> g0[b][j] == none
    requires forall b :: 0 <= b < net.boards ==> b in of
    requires net.boards > 0 && Renamed(net, g, of, 0, net.ifaces) && NewRenamed(net, g, map[0 := 0], of, 0)
    ensures Shows(net, g, of, none)
  {
    forall b: nat, j: nat | b < net.boards && j < net.ifaces ensures CellIs(net, of, b, j, g[b][j], none) {
      assert Renamed(net, g, of, b, net.ifaces);
      assert g0[b][j] == none;
    }
    forall r, j | net.boards <= r < |g| && 0 <= j < net.ifaces ensures g[r][j] == none {
      assert Port(r, j) !in net.wire;
      assert g0[r][j] == none;
    }
  }

  lemma StartBound(net: Net, of: map<nat, nat>)
    requires net.Valid()
    ensures |Unnumbered(net, of)| <= net.boards
  {
    BoundedSize(Unnumbered(net, of), net.boards);
  }

  /** Whole matrices agree: the table shows x at a cell exactly when the expected matrix does, both
      rows and entries counted from the master's id, and no other cell of the table shows anything. */
  ghost predicate Matches(cfg: Config, topo: Table, g: seq<seq<nat>>, none: nat) {
    forall k {:trigger CellMatches(cfg, topo, g, none, k)} :: CellMatches(cfg, topo, g, none, k)
  }

  ghost predicate CellMatches(cfg: Config, topo: Table, g: seq<seq<nat>>, none: nat, k: Slot) {
    var r, i := k.id - cfg.masterId, k.iface;
    if 0 <= r < |g| && i < |g[r]| && g[r][i] != none then k in topo && topo[k] == cfg.masterId + g[r][i] else k !in topo
  }

  /** What the test compares: the master's discovered topology is the expected matrix, cell by cell. */
  lemma DiscoveryMeetsTest(cfg: Config, s: D.State, g: seq<seq<nat>>, none: nat)
    requires cfg.Valid() && cfg.master == 0 && DT.Reachable(cfg, s) && D.AllDone(cfg, s) && cfg.net.boards <= none
    requires Moved(cfg.net, DR.Expected(cfg).of, g, cfg.net.boards, none)
    ensures |s.nodes| > 0 && Matches(cfg, s.nodes[0].topo, g, none)
  {
    DT.DoneMaster(cfg, s);
    hide DT.Reachable, D.AllDone, Net.Connected, DR.Expected, Moved, CellMatches;
    forall k: Slot ensures CellMatches(cfg, s.nodes[0].topo, g, none, k) {
      if k in s.nodes[0].topo {
        KnownMatches(cfg, s, g, none, k);
      } else {
        UnknownMatches(cfg, s, g, none, k);
      }
    }
  }

  lemma MovedAt(net: Net, of: map<nat, nat>, g: seq<seq<nat>>, none: nat, b: nat, j: nat)
    requires Moved(net, of, g, net.boards, none) && b < net.boards && j < net.ifaces
    ensures b in of && of[b] < |g| && |g[of[b]]| == net.ifaces && CellIs(net, of, b, j, g[of[b]][j], none)
  {
    assert MovedCell(net, of, g, b, j, none);
  }

  /** A cable of p, in the numbers of the renumbering counted from the master's id. */
  ghost predicate Shown(cfg: Config, topo: Table, of: map<nat, nat>, p: Port)
    requires p in cfg.net.wire
  {
    && p.board in of
    && cfg.net.wire[p].board in of
    && of[cfg.net.wire[p].board] < cfg.net.boards
    && var k := Slot(cfg.masterId + of[p.board], p.iface);
       k in topo && topo[k] == cfg.masterId + of[cfg.net.wire[p].board]
  }

  lemma DiscoveredCell(cfg: Config, s: D.State, p: Port)
    requires cfg.Valid() && DT.Reachable(cfg, s) && D.AllDone(cfg, s) && p in cfg.net.wire
    ensures cfg.master < |s.nodes| && Shown(cfg, s.nodes[cfg.master].topo, DR.Expected(cfg).of, p)
  {
    hide DT.Reachable, D.AllDone, Net.Connected, DR.Expected;
    DT.DoneMaster(cfg, s);
    DT.DoneId(cfg, s, p.board);
    DT.DoneId(cfg, s, cfg.net.wire[p].board);
    DT.TopologyExact(cfg, s);
  }

  lemma DiscoveredEnd(cfg: Config, s: D.State, k: Slot) returns (p: Port)
    requires cfg.Valid() && DT.Reachable(cfg, s) && D.AllDone(cfg, s) && cfg.master < |s.nodes|
             && k in s.nodes[cfg.master].topo
    ensures p in cfg.net.wire && p.board in DR.Expected(cfg).of
            && k == Slot(cfg.masterId + DR.Expected(cfg).of[p.board], p.iface)
  {
    assert D.Shape(cfg, s);
    hide DT.Reachable, D.AllDone, Net.Connected, DR.Expected;
    DT.TopologyExact(cfg, s);
    assert DT.CableEnd(cfg, s, k);
    p :| p in cfg.net.wire && k == Slot(s.nodes[p.board].id, p.iface);
    DT.DoneId(cfg, s, p.board);
  }

  lemma KnownMatches(cfg: Config, s: D.State, g: seq<seq<nat>>, none: nat, k: Slot)
    requires cfg.Valid() && cfg.master == 0 && DT.Reachable(cfg, s) && D.AllDone(cfg, s) && cfg.net.boards <= none
    requires Moved(cfg.net, DR.Expected(cfg).of, g, cfg.net.boards, none) && |s.nodes| > 0 && k in s.nodes[0].topo
    ensures CellMatches(cfg, s.nodes[0].topo, g, none, k)
  {
    hide DT.Reachable, D.AllDone, Net.Connected, DR.Expected, Moved;
    var p := DiscoveredEnd(cfg, s, k);
    DiscoveredCell(cfg, s, p);
    MovedAt(cfg.net, DR.Expected(cfg).of, g, none, p.board, p.iface);
    assert Port(p.board, p.iface) == p;
  }

  lemma UnknownMatches(cfg: Config, s: D.State, g: seq<seq<nat>>, none: nat, k: Slot)
    requires cfg.Valid() && cfg.master == 0 && DT.Reachable(cfg, s) && D.AllDone(cfg, s) && cfg.net.boards <= none
    requires Moved(cfg.net, DR.Expected(cfg).of, g, cfg.net.boards, none) && |s.nodes| > 0 && k !in s.nodes[0].topo
    ensures CellMatches(cfg, s.nodes[0].topo, g, none, k)
  {
    hide DT.Reachable, D.AllDone, Net.Connected, DR.Expected;
    if cfg.masterId <= k.id < cfg.masterId + cfg.net.boards && k.iface < cfg.net.ifaces {
      var b := DT.BoardOf(cfg, s, k.id);
      DT.DoneId(cfg, s, b);
      hide Moved;
      MovedAt(cfg.net, DR.Expected(cfg).of, g, none, b, k.iface);
      if Port(b, k.iface) in cfg.net.wire {
        DiscoveredCell(cfg, s, Port(b, k.iface));
      }
    }
  }
}
