/** What the computed tables are worth: shortest paths, and exactly when they are complete. */
module RouteTheorems {
  import opened Fabrics
  import opened FiniteSets
  import opened InterfaceMasks
  import opened RouteSpec
  import opened RoutingTables

  // ----- forwarding -----

  /** rows[a] is the row of node a; every node has a route to every other. */
  ghost predicate Complete(f: Fabric, rows: seq<seq<bv8>>) {
    f.Framed() && |rows| >= f.last && forall a: nat :: f.Node(a) ==> RowIs(f, a, rows[a], f.Nodes())
  }

  /** A packet for d may go from x to y: y is behind an interface in x's mask for d. */
  ghost predicate MayForward(f: Fabric, rows: seq<seq<bv8>>, d: nat, x: nat, y: nat)
    requires Complete(f, rows)
  {
    && f.Node(x) && f.Node(d) && x != d
    && exists i: nat :: i < f.ifaces && Has(rows[x][d], i) && f.cells[x][i] == y
  }

  /** Whichever interface of the mask the hardware picks, the packet gets one hop closer. */
  lemma ForwardCloser(f: Fabric, rows: seq<seq<bv8>>, d: nat, x: nat, y: nat, k: nat)
    requires Complete(f, rows) && MayForward(f, rows, d, x, y) && f.At(x, d, k)
    ensures f.Node(y) && k > 0 && f.At(y, d, k - 1)
  {
    hide Fabric.Ball, Fabric.At, Toward, Has;
    assert d in f.Nodes();
    var i: nat :| i < f.ifaces && Has(rows[x][d], i) && f.cells[x][i] == y;
    BitCloser(f, x, d, rows[x][d], i, k);
  }

  /** Every interface bit of a route leads to a neighbour that is one hop closer. */
  lemma BitCloser(f: Fabric, a: nat, d: nat, m: bv8, i: nat, k: nat)
    requires f.Framed() && f.Node(a) && Toward(f, a, d, m) && Has(m, i) && f.At(a, d, k)
    ensures i < f.ifaces && f.Node(f.cells[a][i]) && k > 0 && f.At(f.cells[a][i], d, k - 1)
  {
    hide Fabric.Ball, Fabric.At, Fabric.Framed, Has;
    var n: nat, j: nat :| Hop(f, a, n, m) && f.At(a, d, j + 1) && f.At(n, d, j);
    AtUnique(f, a, d, k, j + 1);
  }

  /** A node that a packet has not reached its destination at has an interface to send it on. */
  lemma ForwardOn(f: Fabric, rows: seq<seq<bv8>>, d: nat, x: nat)
    requires Complete(f, rows) && f.Node(x) && f.Node(d) && x != d
    ensures exists y :: MayForward(f, rows, d, x, y)
  {
    assert rows[x][d] != 0;
    assert Toward(f, x, d, rows[x][d]);
    var n: nat, j: nat :| Hop(f, x, n, rows[x][d]) && f.At(x, d, j + 1) && f.At(n, d, j);
    HasNone(rows[x][d]);
    var i :| 0 <= i < 8 && Has(rows[x][d], i);
    assert MayForward(f, rows, d, x, n);
  }

  ghost predicate Travels(f: Fabric, rows: seq<seq<bv8>>, d: nat, path: seq<nat>)
    requires Complete(f, rows)
  {
    && |path| > 0 && f.Node(path[0]) && f.Node(d)
    && forall j :: 0 <= j < |path| - 1 ==> MayForward(f, rows, d, path[j], path[j + 1])
  }

  /** By complete tables every packet travels on shortest paths: after j hops it is j hops closer
      and it arrives after exactly the distance. */
  lemma {:induction false} ShortestPath(f: Fabric, rows: seq<seq<bv8>>, d: nat, path: seq<nat>, k: nat)
    requires Complete(f, rows) && Travels(f, rows, d, path) && f.At(path[0], d, k)
    ensures |path| - 1 <= k && f.At(path[|path| - 1], d, k - (|path| - 1))
    ensures path[|path| - 1] == d <==> |path| - 1 == k
    decreases |path|
  {
    hide Fabric.Ball, Complete, MayForward;
    var n := |path| - 1;
    if n > 0 {
      assert path[..n][n - 1] == path[n - 1];
      ShortestPath(f, rows, d, path[..n], k);
      assert MayForward(f, rows, d, path[n - 1], path[n]);
      ForwardCloser(f, rows, d, path[n - 1], path[n], k - (n - 1));
    }
    AtZero(f, path[n], d, k - n);
  }

  lemma AtZero(f: Fabric, a: nat, d: nat, k: nat)
    requires f.At(a, d, k)
    ensures a == d <==> k == 0
  {
    assert f.At(a, a, 0);
    if a == d {
      AtUnique(f, a, d, 0, k);
    }
  }

  // ----- completeness -----

  /** e is the greatest distance from a. */
  ghost predicate Radius(f: Fabric, a: nat, e: nat) {
    f.Ball(a, e) == f.Nodes() && forall k: nat :: k < e ==> f.Ball(a, k) != f.Nodes()
  }

  /** The nodes at distance exactly e. */
  ghost function Rim(f: Fabric, a: nat, e: nat): set<nat> {
    set d: nat | d in f.Nodes() && f.At(a, d, e)
  }

  lemma {:induction false} RadiusExists(f: Fabric, a: nat, k: nat) returns (e: nat)
    requires f.Valid() && f.Connected() && f.Node(a) && forall j: nat :: j < k ==> f.Ball(a, j) != f.Nodes()
    ensures Radius(f, a, e)
    decreases f.last - f.first - |f.Ball(a, k)|
  {
    hide Fabric.Ball;
    if f.Ball(a, k) == f.Nodes() {
      e := k;
    } else {
      BallSwells(f, a, k);
      BallNodes(f, a, k + 1);
      NodesSize(f);
      SubsetSize(f.Ball(a, k), f.Ball(a, k + 1));
      SubsetSize(f.Ball(a, k + 1), f.Nodes());
      e := RadiusExists(f, a, k + 1);
    }
  }

  lemma RimSize(f: Fabric, a: nat, e: nat)
    requires f.Framed() && f.Node(a) && e > 0 && Radius(f, a, e)
    ensures |Rim(f, a, e)| == f.last - f.first - |f.Ball(a, e - 1)|
  {
    BallNodes(f, a, e - 1);
    NodesSize(f);
    assert Rim(f, a, e) == f.Nodes() - f.Ball(a, e - 1);
  }

  /** The row of a is complete exactly when no node is more than two hops away, or more nodes lie
      at the greatest distance than a has surplus parallel cables. */
  lemma CompleteIff(f: Fabric, a: nat, rounds: nat, e: nat)
    requires f.Valid() && f.Connected() && f.Node(a) && Stops(f, a, rounds) && Radius(f, a, e)
    ensures f.Ball(a, rounds + 1) == f.Nodes() <==> e <= 2 || |Rim(f, a, e)| > Surplus(f, a)
  {
    hide Fabric.Ball, Surplus, Rim, Fabric.Connected;
    BallNodes(f, a, rounds + 1);
    if e <= rounds + 1 {
      BallGrows(f, a, e, rounds + 1);
    }
    if e > 2 {
      RimSize(f, a, e);
      if rounds + 1 < e {
        BallNodes(f, a, e - 1);
        BallGrows(f, a, rounds + 1, e - 1);
        SubsetSize(f.Ball(a, rounds + 1), f.Ball(a, e - 1));
      } else {
        assert rounds > e - 2 ==> Short(f, a, e - 2);
      }
    }
  }

  /** The same condition for the computed row; and without it at most `Surplus` nodes lack a route,
      none when no two interfaces of a lead to the same neighbour. */
  lemma RowComplete(f: Fabric, a: nat, row: seq<bv8>, e: nat)
    requires f.Valid() && f.Connected() && f.Node(a) && Searched(f, a, row) && Radius(f, a, e)
    ensures RowIs(f, a, row, f.Nodes()) <==> e <= 2 || |Rim(f, a, e)| > Surplus(f, a)
    ensures |Unrouted(f, a, row)| <= Surplus(f, a)
    ensures Surplus(f, a) == 0 ==> RowIs(f, a, row, f.Nodes())
  {
    hide Fabric.Ball, Surplus, Rim, Fabric.Connected, Toward, Radius;
    var rounds: nat :| Stops(f, a, rounds) && RowIs(f, a, row, f.Ball(a, rounds + 1));
    CompleteIff(f, a, rounds, e);
    BallNodes(f, a, rounds + 1);
    NodesSize(f);
    assert Unrouted(f, a, row) == f.Nodes() - f.Ball(a, rounds + 1);
    if RowIs(f, a, row, f.Nodes()) {
      assert f.Ball(a, rounds + 1) == f.Nodes();
    }
    SubsetSize(f.Ball(a, rounds + 1), f.Nodes());
  }

  ghost function Unrouted(f: Fabric, a: nat, row: seq<bv8>): set<nat>
    requires |row| >= f.last
  {
    set d: nat | d in f.Nodes() && d != a && row[d] == 0
  }

  // ----- a network on which the loop stops too early -----

  /** Nodes 1 to 4 in a line, with two cables between 1 and 2. */
  function DoubleLine(): Fabric {
    Fabric([[9, 9, 9], [2, 2, 9], [1, 1, 3], [2, 4, 9], [3, 9, 9]], 3, 1, 5, 9)
  }

  lemma DoubleLineAdj(a: nat, b: nat)
    requires DoubleLine().Node(a) && DoubleLine().Node(b)
    ensures DoubleLine().Adj(a, b) <==>
              (a == 1 && b == 2) || (a == 2 && (b == 1 || b == 3)) || (a == 3 && (b == 2 || b == 4))
                  || (a == 4 && b == 3)
  {
    var row := DoubleLine().cells[a];
    assert DoubleLine().Adj(a, b) <==> row[0] == b || row[1] == b || row[2] == b;
  }

  lemma DoubleLineValid()
    ensures DoubleLine().Valid() && DoubleLine().Connected()
  {
    var f := DoubleLine();
    forall a, b | f.Node(a) && f.Node(b) && f.Adj(a, b) ensures f.Adj(b, a) {
      DoubleLineAdj(a, b);
      DoubleLineAdj(b, a);
    }
    forall s: set<nat> | f.first in s && f.Closed(s) ensures f.Nodes() <= s {
      DoubleLineAdj(1, 2);
      DoubleLineAdj(2, 3);
      DoubleLineAdj(3, 4);
      assert 2 in s && 3 in s && 4 in s;
    }
  }

  lemma DoubleLineBalls()
    ensures DoubleLine().Ball(1, 1) == {1, 2} && DoubleLine().Ball(1, 2) == {1, 2, 3}
  {
    hide Fabric.Adj;
    var f := DoubleLine();
    assert f.Ball(1, 0) == {1};
    forall b | f.Node(b) ensures f.NextTo({1}, b) <==> b == 2 {
      DoubleLineAdj(1, b);
    }
    assert f.Ball(1, 1) == {1, 2};
    forall b | f.Node(b) ensures f.NextTo({1, 2}, b) <==> b == 1 || b == 2 || b == 3 {
      DoubleLineAdj(1, b);
      DoubleLineAdj(2, b);
    }
    assert f.Ball(1, 2) == {1, 2, 3};
  }

  /** Node 1 counts its two cables to 2 as two nodes, so its search ends before it sees node 4. */
  lemma DoubleLineStopsEarly()
    ensures DoubleLine().Valid() && DoubleLine().Connected() && DoubleLine().Node(1) && DoubleLine().Node(4)
    ensures Stops(DoubleLine(), 1, 1) && 4 !in DoubleLine().Ball(1, 2)
  {
    hide Fabric.Ball, Fabric.Connected;
    var f := DoubleLine();
    DoubleLineValid();
    DoubleLineBalls();
    assert Degree(f, 1, 0) == 0 && Degree(f, 1, 1) == 1 && Degree(f, 1, 2) == 2;
  }
}
