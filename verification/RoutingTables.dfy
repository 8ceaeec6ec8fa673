/** The master's computation of all routing tables: a breadth-first search from every node, in
    place on the matrix of masks and on the two rows of frontier marks. */
module RoutingTables {
  import opened Fabrics
  import opened FiniteSets
  import opened InterfaceMasks
  import opened RouteSpec

  ghost function Row(rt: array2<bv8>, a: nat): (row: seq<bv8>)
    requires a < rt.Length0
    reads rt
    ensures |row| == rt.Length1 && forall j :: 0 <= j < rt.Length1 ==> row[j] == rt[a, j]
  {
    seq(rt.Length1, j requires 0 <= j < rt.Length1 reads rt => rt[a, j])
  }

  /** Row k of the marks holds exactly the ids in s, each in its own cell. */
  ghost predicate Marks(nb: array2<nat>, k: nat, s: set<nat>, none: nat)
    requires k < nb.Length0
    reads nb
  {
    forall j: nat :: j < nb.Length1 ==> nb[k, j] == if j in s then j else none
  }

  /** Two rows of marks as long as the rows of the matrix, in memory of their own. */
  ghost predicate Tables(rt: array2<bv8>, nb: array2<nat>) {
    (rt as object) != nb && nb.Length0 == 2 && nb.Length1 == rt.Length1
  }

  ghost predicate Fits(f: Fabric, rt: array2<bv8>, nb: array2<nat>) {
    f.Framed() && f.last <= rt.Length0 && f.last <= rt.Length1 && Tables(rt, nb)
  }

  /** The rows other than a are as before. */
  twostate predicate OthersKept(rt: array2<bv8>, a: nat)
    reads rt
  {
    forall b, j :: 0 <= b < rt.Length0 && 0 <= j < rt.Length1 && b != a ==> rt[b, j] == old(rt[b, j])
  }

  /** Clears the row of a and both rows of marks. */
  method InitRoutingNeighbour(rt: array2<bv8>, nb: array2<nat>, a: nat, none: nat)
    requires a < rt.Length0 && Tables(rt, nb)
    modifies rt, nb
    ensures forall j :: 0 <= j < rt.Length1 ==> rt[a, j] == 0
    ensures Marks(nb, 0, {}, none) && Marks(nb, 1, {}, none)
    ensures OthersKept(rt, a)
  {
    for i := 0 to rt.Length1
      invariant forall j :: 0 <= j < i ==> rt[a, j] == 0 && nb[0, j] == none && nb[1, j] == none
      invariant OthersKept(rt, a)
    {
      rt[a, i] := 0;
      nb[0, i] := none;
      nb[1, i] := none;
    }
  }

  lemma NoLeads(f: Fabric, a: nat)
    requires f.Framed() && f.Node(a)
    ensures forall d: nat :: f.Node(d) ==> Leads(f, a, d, 0, 0)
  {
    HasNone(0);
  }

  /** Gives each neighbour of a the mask of the interfaces that lead to it; counts interfaces. */
  method ComputeNeighboursRoute(f: Fabric, a: nat, rt: array2<bv8>, nb: array2<nat>) returns (counter: nat)
    requires Fits(f, rt, nb) && f.Node(a)
    requires forall j :: 0 <= j < rt.Length1 ==> rt[a, j] == 0
    requires Marks(nb, 0, {}, f.none)
    modifies rt, nb
    ensures forall d: nat :: f.Node(d) ==> Leads(f, a, d, rt[a, d], f.ifaces)
    ensures forall d: nat :: f.Node(d) ==> MaskIs(f, a, d, rt[a, d])
    ensures forall d: nat :: d < rt.Length1 && !f.Node(d) ==> rt[a, d] == 0
    ensures Marks(nb, 0, Seen(f, a, f.ifaces), f.none) && forall j :: 0 <= j < nb.Length1 ==> nb[1, j] == old(nb[1, j])
    ensures counter == Degree(f, a, f.ifaces)
    ensures OthersKept(rt, a)
  {
    hide Leads;
    counter := 0;
    assert forall d: nat :: f.Node(d) ==> Leads(f, a, d, 0, 0) by {
      NoLeads(f, a);
    }
    for k := 0 to f.ifaces
      invariant forall d: nat :: f.Node(d) ==> Leads(f, a, d, rt[a, d], k)
      invariant forall d: nat :: d < rt.Length1 && !f.Node(d) ==> rt[a, d] == 0
      invariant Marks(nb, 0, Seen(f, a, k), f.none) && forall j :: 0 <= j < nb.Length1 ==> nb[1, j] == old(nb[1, j])
      invariant counter == Degree(f, a, k) <= k
      invariant OthersKept(rt, a)
    {
      var n := f.cells[a][k];
      forall d: nat | f.Node(d) ensures Leads(f, a, d, if n == d then rt[a, d] | Bit(k) else rt[a, d], k + 1) {
        LeadsNext(f, a, d, rt[a, d], k);
      }
      if n != f.none {
        rt[a, n] := rt[a, n] | Bit(k);
        nb[0, n] := n;
        counter := (counter + 1) % 256;
      }
    }
    forall d: nat | f.Node(d) ensures MaskIs(f, a, d, rt[a, d]) {
      LeadsBits(f, a, d, rt[a, d]);
    }
  }

  /** Bit i of the word, counted from the lowest, is set exactly when interface i of a leads to d. */
  ghost predicate MaskIs(f: Fabric, a: nat, d: nat, m: bv8)
    requires f.Framed() && f.Node(a)
  {
    forall i: nat {:trigger Has(m, i)} :: i < 8 ==> ((m >> i) & 1 == 1 <==> i < f.ifaces && f.cells[a][i] == d)
  }

  lemma LeadsBits(f: Fabric, a: nat, d: nat, m: bv8)
    requires f.Framed() && f.Node(a) && Leads(f, a, d, m, f.ifaces)
    ensures MaskIs(f, a, d, m)
  {
    forall i: nat | i < 8 ensures (m >> i) & 1 == 1 <==> i < f.ifaces && f.cells[a][i] == d {
      assert Has(m, i) <==> (m >> i) & 1 == 1;
    }
  }

  /** The state of a search from a: s is covered, `marked` is the next frontier so far, and the
      counter counts the nodes of s other than a, and the surplus interfaces. */
  ghost predicate Searching(f: Fabric, a: nat, rt: array2<bv8>, nb: array2<nat>, s: set<nat>, r: nat, base: set<nat>,
                            counter: nat)
    requires Fits(f, rt, nb) && f.Node(a)
    reads rt, nb
  {
    && a in s && Growing(f, a, Row(rt, a), s, r)
    && Marks(nb, 1, base + (s - f.Ball(a, r + 1)), f.none)
    && counter == |s| - 1 + Surplus(f, a)
  }

  lemma CounterBound(f: Fabric, a: nat, s: set<nat>, r: nat)
    requires f.Framed() && f.Node(a) && s <= f.Ball(a, r)
    ensures |s| <= f.last - f.first && 0 <= Surplus(f, a) < f.ifaces
  {
    BallNodes(f, a, r);
    NodesSize(f);
    SubsetSize(s, f.Nodes());
    SurplusRange(f, a);
  }

  /** The neighbours of x that have no route yet get the route of x. */
  method ScanNode(f: Fabric, a: nat, x: nat, rt: array2<bv8>, nb: array2<nat>, start: nat,
                  ghost s0: set<nat>, ghost r: nat, ghost base: set<nat>)
    returns (counter: nat, ghost s: set<nat>)
    requires Fits(f, rt, nb) && f.Node(a) && f.Node(x) && f.last - f.first + f.ifaces <= 256
    requires Searching(f, a, rt, nb, s0, r, base, start) && x in f.Ball(a, r + 1) && x != a
    modifies rt, nb
    ensures s0 <= s && Searching(f, a, rt, nb, s, r, base, counter)
    ensures forall y :: f.Node(y) && f.Adj(x, y) ==> y in s
    ensures forall j :: 0 <= j < nb.Length1 ==> nb[0, j] == old(nb[0, j])
    ensures OthersKept(rt, a)
  {
    hide Growing, Fabric.Ball, Surplus;
    counter, s := start, s0;
    for i := 0 to f.ifaces
      invariant s0 <= s && Searching(f, a, rt, nb, s, r, base, counter)
      invariant forall k :: 0 <= k < i && f.cells[x][k] != f.none ==> f.cells[x][k] in s
      invariant forall j :: 0 <= j < nb.Length1 ==> nb[0, j] == old(nb[0, j])
      invariant OthersKept(rt, a)
    {
      var y := f.cells[x][i];
      if y != f.none && y != a {
        RouteIff(f, a, Row(rt, a), s, r, y);
        if rt[a, y] == 0 {
          ghost var row := Row(rt, a);
          Cover(f, a, row, s, r, x, y);
          rt[a, y] := rt[a, x];
          nb[1, y] := y;
          assert Row(rt, a) == row[y := row[x]];
          s := s + {y};
          counter := (counter + 1) % 256;
        }
      }
    }
  }

  lemma RouteIff(f: Fabric, a: nat, row: seq<bv8>, s: set<nat>, r: nat, y: nat)
    requires f.Framed() && f.Node(a) && Growing(f, a, row, s, r) && f.Node(y) && y != a
    ensures |row| >= f.last && (row[y] == 0 <==> y !in s)
  {
  }

  lemma Cover(f: Fabric, a: nat, row: seq<bv8>, s: set<nat>, r: nat, x: nat, y: nat)
    requires f.Framed() && f.Node(a) && Growing(f, a, row, s, r) && f.last - f.first + f.ifaces <= 256
    requires x in f.Ball(a, r + 1) && x != a && f.Node(x) && f.Node(y) && f.Adj(x, y) && y != a && y !in s
    ensures |row| >= f.last && Growing(f, a, row[y := row[x]], s + {y}, r)
    ensures y !in f.Ball(a, r + 1) && |s + {y}| + Surplus(f, a) <= 256
  {
    Extend(f, a, row, s, r, x, y);
    CounterBound(f, a, s + {y}, r + 2);
  }

  /** One round: every marked node of the frontier is scanned. */
  method ScanLevel(f: Fabric, a: nat, rt: array2<bv8>, nb: array2<nat>, start: nat,
                   ghost r: nat, ghost base: set<nat>, ghost front: set<nat>)
    returns (counter: nat)
    requires Fits(f, rt, nb) && f.Node(a) && f.last - f.first + f.ifaces <= 256
    requires Searching(f, a, rt, nb, f.Ball(a, r + 1), r, base, start)
    requires Marks(nb, 0, front, f.none) && Frontier(f, a, r, front)
    modifies rt, nb
    ensures Searching(f, a, rt, nb, f.Ball(a, r + 2), r, base, counter)
    ensures OthersKept(rt, a)
  {
    hide Growing, Fabric.Ball, Surplus, Fabric.Framed;
    ghost var s := f.Ball(a, r + 1);
    counter := start;
    for x := f.first to f.last
      invariant f.Ball(a, r + 1) <= s && Searching(f, a, rt, nb, s, r, base, counter)
      invariant Marks(nb, 0, front, f.none)
      invariant forall z, y :: z in front && f.Node(z) && z < x && f.Node(y) && f.Adj(z, y) ==> y in s
      invariant OthersKept(rt, a)
    {
      if nb[0, x] != f.none {
        assert x in front;
        counter, s := ScanNode(f, a, x, rt, nb, counter, s, r, base);
      } else {
        NotNone(f, x);
      }
    }
    LevelDone(f, a, Row(rt, a), s, r, front);
  }

  lemma NotNone(f: Fabric, x: nat)
    requires f.Framed() && f.Node(x)
    ensures x != f.none
  {
  }

  /** The frontier of round r holds the nodes at distance r + 1, perhaps with nearer ones. */
  ghost predicate Frontier(f: Fabric, a: nat, r: nat, front: set<nat>) {
    f.Ball(a, r + 1) - f.Ball(a, r) <= front <= f.Ball(a, r + 1) - {a}
  }

  /** The second level becomes the first. */
  method CopyMarks(nb: array2<nat>, ghost s: set<nat>, none: nat)
    requires nb.Length0 == 2 && Marks(nb, 1, s, none)
    modifies nb
    ensures Marks(nb, 0, s, none) && Marks(nb, 1, s, none)
  {
    for j := 0 to nb.Length1
      invariant forall k :: 0 <= k < j ==> nb[0, k] == nb[1, k]
      invariant Marks(nb, 1, s, none)
    {
      nb[0, j] := nb[1, j];
    }
  }

  /** After round r the counter is still below the number of other nodes. */
  ghost predicate Short(f: Fabric, a: nat, r: nat)
    requires f.Framed() && f.Node(a)
  {
    |f.Ball(a, r + 1)| - 1 + Surplus(f, a) < f.last - f.first - 1
  }

  /** The loop ends after that many rounds: at least one, and the first that is not short. */
  ghost predicate Stops(f: Fabric, a: nat, rounds: nat)
    requires f.Framed() && f.Node(a)
  {
    rounds >= 1 && !Short(f, a, rounds) && forall r: nat :: 1 <= r < rounds ==> Short(f, a, r)
  }

  /** The row covers what the rounds up to the stop have reached. */
  ghost predicate Searched(f: Fabric, a: nat, row: seq<bv8>)
    requires f.Framed() && f.Node(a)
  {
    exists rounds: nat :: Stops(f, a, rounds) && RowIs(f, a, row, f.Ball(a, rounds + 1))
  }

  /** The search from a: at least one round, then as many as the counter asks for. The row of
      marks for the next level is never cleared, so a frontier may hold nearer nodes again. */
  method ComputeRow(f: Fabric, a: nat, rt: array2<bv8>, nb: array2<nat>)
    requires Fits(f, rt, nb) && f.Valid() && f.Connected() && f.Node(a) && f.last - f.first + f.ifaces <= 256
    modifies rt, nb
    ensures Searched(f, a, Row(rt, a))
    ensures OthersKept(rt, a)
  {
    hide Growing, Fabric.Ball, Surplus, Fabric.Framed, Fabric.Connected;
    InitRoutingNeighbour(rt, nb, a, f.none);
    var counter: nat := ComputeNeighboursRoute(f, a, rt, nb);
    FirstLevel(f, a, Row(rt, a));
    ghost var r: nat, base: set<nat>, front := 0, {}, Seen(f, a, f.ifaces);
    var more := true;
    while more
      invariant Searching(f, a, rt, nb, f.Ball(a, r + 1), r, base, counter)
      invariant Marks(nb, 0, front, f.none) && Frontier(f, a, r, front)
      invariant base <= f.Ball(a, r + 1) - {a} && (r > 0 ==> f.Ball(a, r + 1) - f.Ball(a, r) <= base)
      invariant r == 0 ==> more
      invariant forall q: nat :: 1 <= q < r ==> Short(f, a, q)
      invariant r > 0 ==> (more <==> Short(f, a, r))
      invariant OthersKept(rt, a)
      decreases more, if r == 0 then f.last - f.first + 1 else f.last - f.first - |f.Ball(a, r + 1)|
    {
      counter := ScanLevel(f, a, rt, nb, counter, r, base, front);
      NextLevel(f, a, Row(rt, a), r);
      base := base + (f.Ball(a, r + 2) - f.Ball(a, r + 1));
      front := base;
      CopyMarks(nb, front, f.none);
      r := r + 1;
      more := counter < f.last - f.first - 1;
    }
    RowDone(f, a, Row(rt, a), r);
  }

  lemma FirstLevel(f: Fabric, a: nat, row: seq<bv8>)
    requires f.Framed() && f.Node(a) && |row| >= f.last
    requires forall d: nat :: f.Node(d) ==> Leads(f, a, d, row[d], f.ifaces)
    requires forall d: nat :: d < |row| && !f.Node(d) ==> row[d] == 0
    ensures Growing(f, a, row, f.Ball(a, 1), 0) && a in f.Ball(a, 1)
    ensures Frontier(f, a, 0, Seen(f, a, f.ifaces))
    ensures |f.Ball(a, 1)| - 1 + Surplus(f, a) == Degree(f, a, f.ifaces)
  {
    FirstRow(f, a, row);
    FirstBall(f, a);
    SeenIff(f, a, f.ifaces, a);
    assert f.Ball(a, 0) == {a};
  }

  /** A finished level is the start of the next; while nodes are missing, balls grow. */
  lemma NextLevel(f: Fabric, a: nat, row: seq<bv8>, r: nat)
    requires f.Valid() && f.Connected() && f.Node(a) && Growing(f, a, row, f.Ball(a, r + 2), r)
    ensures Growing(f, a, row, f.Ball(a, r + 2), r + 1)
    ensures a in f.Ball(a, r + 1) && f.Ball(a, r + 1) <= f.Ball(a, r + 2)
    ensures |f.Ball(a, r + 2)| <= f.last - f.first && 0 <= Surplus(f, a)
    ensures Short(f, a, r) ==> |f.Ball(a, r + 1)| < |f.Ball(a, r + 2)|
  {
    hide RowIs, Surplus;
    BallGrows(f, a, r + 2, r + 3);
    BallGrows(f, a, r + 1, r + 2);
    BallNodes(f, a, r + 1);
    CounterBound(f, a, f.Ball(a, r + 2), r + 2);
    NodesSize(f);
    if f.Ball(a, r + 1) != f.Nodes() {
      BallSwells(f, a, r + 1);
      SubsetSize(f.Ball(a, r + 1), f.Ball(a, r + 2));
    }
  }

  lemma RowDone(f: Fabric, a: nat, row: seq<bv8>, r: nat)
    requires f.Framed() && f.Node(a) && r > 0 && Growing(f, a, row, f.Ball(a, r + 1), r) && Stops(f, a, r)
    ensures Searched(f, a, row)
  {
  }

  /** All tables: the row of every node, and no other row, is computed. */
  method ComputeRoutingTables(f: Fabric, rt: array2<bv8>)
    requires f.Valid() && f.Connected() && f.last <= rt.Length0 && f.last <= rt.Length1
    requires f.last - f.first + f.ifaces <= 256
    modifies rt
    ensures forall a: nat :: f.Node(a) ==> Searched(f, a, Row(rt, a))
    ensures forall b, j :: 0 <= b < rt.Length0 && 0 <= j < rt.Length1 && !(f.first <= b < f.last) ==>
            rt[b, j] == old(rt[b, j])
  {
    hide Searched, Fabric.Connected;
    var nb := new nat[2, rt.Length1];
    for a := f.first to f.last
      invariant forall b: nat :: f.Node(b) && b < a ==> Searched(f, b, Row(rt, b))
      invariant forall b, j :: 0 <= b < rt.Length0 && 0 <= j < rt.Length1 && !(f.first <= b < f.last) ==>
                rt[b, j] == old(rt[b, j])
    {
      label Before:
      ComputeRow(f, a, rt, nb);
      forall b: nat | f.Node(b) && b < a ensures Searched(f, b, Row(rt, b)) {
        assert Row(rt, b) == old@Before(Row(rt, b));
      }
    }
  }
}
