/** What a row of the routing tables means, and when the computation of a row stops. */
module RouteSpec {
  import opened Fabrics
  import opened InterfaceMasks

  /** m holds exactly the interfaces of a below k that lead to n. */
  ghost predicate Leads(f: Fabric, a: nat, n: nat, m: bv8, k: nat)
    requires f.Framed() && f.Node(a) && k <= f.ifaces
  {
    forall i: nat :: Has(m, i) <==> i < k && f.cells[a][i] == n
  }

  lemma LeadsNext(f: Fabric, a: nat, n: nat, m: bv8, k: nat)
    requires f.Framed() && f.Node(a) && k < f.ifaces && Leads(f, a, n, m, k)
    ensures Leads(f, a, n, if f.cells[a][k] == n then m | Bit(k) else m, k + 1)
  {
    hide Has, Bit;
    forall i: nat ensures Has(m | Bit(k), i) <==> Has(m, i) || i == k {
      HasOr(m, k, i);
    }
  }

  /** m holds exactly the interfaces of a that lead to neighbour n. */
  ghost predicate Hop(f: Fabric, a: nat, n: nat, m: bv8)
    requires f.Framed() && f.Node(a)
  {
    f.Node(n) && f.Adj(a, n) && Leads(f, a, n, m, f.ifaces)
  }

  /** m sends a packet for d, which is k + 1 hops from a, to a neighbour that is k hops from d. */
  ghost predicate Toward(f: Fabric, a: nat, d: nat, m: bv8)
    requires f.Framed() && f.Node(a)
  {
    exists n: nat, k: nat :: Hop(f, a, n, m) && f.At(a, d, k + 1) && f.At(n, d, k)
  }

  /** A row in which exactly the nodes of s have a route, each a shortest one. */
  ghost predicate RowIs(f: Fabric, a: nat, row: seq<bv8>, s: set<nat>)
    requires f.Framed() && f.Node(a)
  {
    && |row| >= f.last
    && (forall d: nat :: f.Node(d) ==> (row[d] != 0 <==> d in s && d != a))
    && (forall d: nat :: d < |row| && !f.Node(d) ==> row[d] == 0)
    && (forall d: nat :: f.Node(d) && d in s && d != a ==> Toward(f, a, d, row[d]))
  }

  /** The interfaces of a below i that are connected. */
  ghost function Degree(f: Fabric, a: nat, i: nat): nat
    requires f.Framed() && f.Node(a) && i <= f.ifaces
  {
    if i == 0 then 0 else Degree(f, a, i - 1) + (if f.cells[a][i - 1] == f.none then 0 else 1)
  }

  /** How many more connected interfaces a has than neighbours. */
  ghost function Surplus(f: Fabric, a: nat): int
    requires f.Framed() && f.Node(a)
  {
    Degree(f, a, f.ifaces) - (|f.Ball(a, 1)| - 1)
  }

  /** The neighbours behind the interfaces of a below i. */
  ghost function Seen(f: Fabric, a: nat, i: nat): set<nat>
    requires f.Framed() && f.Node(a) && i <= f.ifaces
  {
    if i == 0 then {} else Seen(f, a, i - 1) + (if f.cells[a][i - 1] == f.none then {} else {f.cells[a][i - 1]})
  }

  lemma {:induction false} SeenSize(f: Fabric, a: nat, i: nat)
    requires f.Framed() && f.Node(a) && i <= f.ifaces
    ensures |Seen(f, a, i)| <= Degree(f, a, i) <= i
  {
    if i > 0 {
      SeenSize(f, a, i - 1);
    }
  }

  lemma {:induction false} SeenIff(f: Fabric, a: nat, i: nat, b: nat)
    requires f.Framed() && f.Node(a) && i <= f.ifaces
    ensures b in Seen(f, a, i) <==> b != f.none && exists j :: 0 <= j < i && f.cells[a][j] == b
    ensures b in Seen(f, a, i) ==> f.Node(b) && b != a
  {
    if i > 0 {
      SeenIff(f, a, i - 1, b);
    }
  }

  lemma FirstBall(f: Fabric, a: nat)
    requires f.Framed() && f.Node(a)
    ensures f.Ball(a, 1) == {a} + Seen(f, a, f.ifaces)
  {
    assert f.Ball(a, 0) == {a};
    forall b | b in f.Ball(a, 1) ensures b in {a} + Seen(f, a, f.ifaces) {
      if b != a {
        assert f.NextTo({a}, b);
        SeenIff(f, a, f.ifaces, b);
      }
    }
    forall b | b in Seen(f, a, f.ifaces) ensures b in f.Ball(a, 1) {
      SeenIff(f, a, f.ifaces, b);
      var j :| 0 <= j < f.ifaces && f.cells[a][j] == b;
      assert f.Node(f.cells[a][j]);
      BallStep(f, a, 0, a, b);
    }
  }

  lemma SurplusRange(f: Fabric, a: nat)
    requires f.Framed() && f.Node(a)
    ensures 0 <= Surplus(f, a) < f.ifaces
  {
    SeenSize(f, a, f.ifaces);
    FirstBall(f, a);
    SeenIff(f, a, f.ifaces, a);
    var n := |Seen(f, a, f.ifaces)|;
    assert |{a} + Seen(f, a, f.ifaces)| == n + 1;
    if Seen(f, a, f.ifaces) == {} {
      NoneSeen(f, a, f.ifaces);
    }
  }

  lemma {:induction false} NoneSeen(f: Fabric, a: nat, i: nat)
    requires f.Framed() && f.Node(a) && i <= f.ifaces && Seen(f, a, i) == {}
    ensures Degree(f, a, i) == 0
  {
    if i > 0 {
      NoneSeen(f, a, i - 1);
    }
  }

  // ----- rows grow by whole levels -----

  /** While level r + 2 is being searched the row covers s: all of level r + 1 and part of the next. */
  ghost predicate Growing(f: Fabric, a: nat, row: seq<bv8>, s: set<nat>, r: nat)
    requires f.Framed() && f.Node(a)
  {
    f.Ball(a, r + 1) <= s <= f.Ball(a, r + 2) && RowIs(f, a, row, s)
  }

  /** A neighbour y of a covered node x that has no route yet takes over the route of x. */
  lemma Extend(f: Fabric, a: nat, row: seq<bv8>, s: set<nat>, r: nat, x: nat, y: nat)
    requires f.Framed() && f.Node(a) && Growing(f, a, row, s, r)
    requires x in f.Ball(a, r + 1) && x != a && f.Node(x) && f.Node(y) && f.Adj(x, y) && y != a && y !in s
    ensures Growing(f, a, row[y := row[x]], s + {y}, r)
  {
    hide Toward, Fabric.Ball, Fabric.Adj, Fabric.Framed;
    BallStep(f, a, r + 1, x, y);
    ExtendToward(f, a, row[x], r, x, y);
  }

  lemma ExtendToward(f: Fabric, a: nat, m: bv8, r: nat, x: nat, y: nat)
    requires f.Framed() && f.Node(a) && Toward(f, a, x, m)
    requires x in f.Ball(a, r + 1) && f.Node(x) && f.Node(y) && f.Adj(x, y) && y !in f.Ball(a, r + 1)
    ensures Toward(f, a, y, m)
  {
    hide Has, Fabric.Ball, Fabric.Adj, Fabric.Framed;
    var n: nat, k: nat :| Hop(f, a, n, m) && f.At(a, x, k + 1) && f.At(n, x, k);
    if k < r {
      BallGrows(f, a, k + 2, r + 1);
      BallStep(f, a, k + 1, x, y);
    } else if k > r {
      BallGrows(f, a, r + 1, k);
    }
    assert k == r;
    BallStep(f, a, k + 1, x, y);
    BallStep(f, n, k, x, y);
    BallAfterHop(f, a, n, k);
    assert f.At(a, y, k + 2) && f.At(n, y, k + 1);
  }

  /** The search of a level is over when every neighbour of its frontier is covered. */
  lemma LevelDone(f: Fabric, a: nat, row: seq<bv8>, s: set<nat>, r: nat, front: set<nat>)
    requires f.Framed() && f.Node(a) && Growing(f, a, row, s, r) && a in s
    requires f.Ball(a, r + 1) - f.Ball(a, r) <= front
    requires forall x, y :: x in front && f.Node(x) && f.Node(y) && f.Adj(x, y) ==> y in s
    ensures s == f.Ball(a, r + 2)
  {
    forall y | y in f.Ball(a, r + 2) ensures y in s {
      if y !in f.Ball(a, r + 1) {
        assert f.NextTo(f.Ball(a, r + 1), y);
        var x :| x in f.Ball(a, r + 1) && f.Node(x) && f.Adj(x, y);
        if x in f.Ball(a, r) {
          BallStep(f, a, r, x, y);
        }
        assert x in front;
      }
    }
  }

  /** After the first level: each neighbour with all interfaces that lead to it. */
  lemma FirstRow(f: Fabric, a: nat, row: seq<bv8>)
    requires f.Framed() && f.Node(a) && |row| >= f.last
    requires forall d: nat :: f.Node(d) ==> Leads(f, a, d, row[d], f.ifaces)
    requires forall d: nat :: d < |row| && !f.Node(d) ==> row[d] == 0
    ensures Growing(f, a, row, f.Ball(a, 1), 0)
  {
    hide Toward, Fabric.Ball;
    FirstBall(f, a);
    BallGrows(f, a, 1, 2);
    forall d: nat | f.Node(d)
      ensures row[d] != 0 <==> d in f.Ball(a, 1) && d != a
      ensures d in f.Ball(a, 1) && d != a ==> Toward(f, a, d, row[d])
    {
      FirstCell(f, a, d, row[d]);
    }
  }

  lemma FirstCell(f: Fabric, a: nat, d: nat, m: bv8)
    requires f.Framed() && f.Node(a) && f.Node(d)
    requires Leads(f, a, d, m, f.ifaces)
    ensures m != 0 <==> d in Seen(f, a, f.ifaces)
    ensures a !in Seen(f, a, f.ifaces)
    ensures d in Seen(f, a, f.ifaces) ==> Toward(f, a, d, m)
  {
    hide Has;
    HasNone(m);
    SeenIff(f, a, f.ifaces, d);
    SeenIff(f, a, f.ifaces, a);
    if d in Seen(f, a, f.ifaces) {
      var j :| 0 <= j < f.ifaces && f.cells[a][j] == d;
      assert Has(m, j);
      FirstBall(f, a);
      assert f.Ball(a, 0) == {a} && f.Ball(d, 0) == {d};
      assert Hop(f, a, d, m) && f.At(a, d, 0 + 1) && f.At(d, d, 0);
    }
  }
}
