/** The numbered network as the master sees it after discovery, and distances in it. */
module Fabrics {

  /** cells[a][i] is the id behind interface i of node a, or `none` (AXIOM_NULL_NODE). The nodes are
      the ids from `first` (the master's) up to, but not including, `last`. */
  datatype Fabric = Fabric(cells: seq<seq<nat>>, ifaces: nat, first: nat, last: nat, none: nat) {

    predicate Node(a: nat) {
      first <= a < last
    }

    ghost predicate Framed() {
      && first < last <= |cells| && 0 < ifaces <= 8 && none >= last
      && (forall a: nat :: Node(a) ==> |cells[a]| == ifaces)
      && (forall a: nat, i :: Node(a) && 0 <= i < ifaces ==>
            cells[a][i] == none || (Node(cells[a][i]) && cells[a][i] != a))
    }

    /** Cables can be followed both ways. */
    ghost predicate Valid() {
      Framed() && forall a, b :: Node(a) && Node(b) && Adj(a, b) ==> Adj(b, a)
    }

    ghost predicate Adj(a: nat, b: nat) {
      a < |cells| && exists i :: 0 <= i < |cells[a]| && cells[a][i] == b
    }

    ghost function Nodes(): set<nat> {
      set a: nat | first <= a < last && Node(a)
    }

    ghost predicate Closed(s: set<nat>) {
      forall a, b :: a in s && Node(a) && Node(b) && Adj(a, b) ==> b in s
    }

    /** Every node can be reached from the master. */
    ghost predicate Connected() {
      forall s: set<nat> :: first in s && Closed(s) ==> Nodes() <= s
    }

    ghost function Around(s: set<nat>): (r: set<nat>)
      ensures s <= r
    {
      s + set b: nat | first <= b < last && Node(b) && NextTo(s, b)
    }

    ghost predicate NextTo(s: set<nat>, b: nat) {
      exists a :: a in s && Node(a) && Adj(a, b)
    }

    /** The nodes within k hops of a. */
    ghost function Ball(a: nat, k: nat): set<nat> {
      if k == 0 then {a} else Around(Ball(a, k - 1))
    }

    /** d is exactly k hops from a. */
    ghost predicate At(a: nat, d: nat, k: nat) {
      d in Ball(a, k) && (k > 0 ==> d !in Ball(a, k - 1))
    }
  }

  lemma {:induction false} BallGrows(f: Fabric, a: nat, j: nat, k: nat)
    requires j <= k
    ensures f.Ball(a, j) <= f.Ball(a, k)
    decreases k
  {
    hide Fabric.Around;
    if j < k {
      BallGrows(f, a, j, k - 1);
    }
  }

  lemma {:induction false} BallNodes(f: Fabric, a: nat, k: nat)
    requires f.Node(a)
    ensures a in f.Ball(a, k) && f.Ball(a, k) <= f.Nodes()
    decreases k
  {
    if k > 0 {
      BallNodes(f, a, k - 1);
    }
  }

  /** One more hop. */
  lemma BallStep(f: Fabric, a: nat, k: nat, b: nat, c: nat)
    requires b in f.Ball(a, k) && f.Node(b) && f.Node(c) && f.Adj(b, c)
    ensures c in f.Ball(a, k + 1)
  {
    assert f.NextTo(f.Ball(a, k), c);
  }

  /** One hop first. */
  lemma {:induction false} BallAfterHop(f: Fabric, a: nat, n: nat, k: nat)
    requires f.Node(a) && f.Node(n) && f.Adj(a, n)
    ensures f.Ball(n, k) <= f.Ball(a, k + 1)
    decreases k
  {
    hide Fabric.Adj, Fabric.Around;
    if k == 0 {
      assert a in f.Ball(a, 0);
      BallStep(f, a, 0, a, n);
    } else {
      BallAfterHop(f, a, n, k - 1);
      AroundMore(f, f.Ball(n, k - 1), f.Ball(a, k));
    }
  }

  lemma AroundMore(f: Fabric, s: set<nat>, t: set<nat>)
    requires s <= t
    ensures f.Around(s) <= f.Around(t)
  {
    hide Fabric.Adj;
    assert forall b :: f.NextTo(s, b) ==> f.NextTo(t, b);
  }

  lemma {:induction false} AtUnique(f: Fabric, a: nat, d: nat, j: nat, k: nat)
    requires f.At(a, d, j) && f.At(a, d, k)
    ensures j == k
  {
    if j < k {
      BallGrows(f, a, j, k - 1);
    } else if k < j {
      BallGrows(f, a, k, j - 1);
    }
  }

  /** A closed set around any node holds every node: cables can be followed both ways. */
  lemma ConnectedFrom(f: Fabric, a: nat, s: set<nat>)
    requires f.Valid() && f.Connected() && f.Node(a) && a in s && f.Closed(s)
    ensures f.Nodes() <= s
  {
    assert a in f.Nodes();
    if f.first !in s {
      var t := f.Nodes() - s;
      forall x, y | x in t && f.Node(x) && f.Node(y) && f.Adj(x, y) ensures y in t {
        assert f.Adj(y, x);
      }
      assert f.Closed(t);
    }
  }

  /** A ball that is not yet everything grows. */
  lemma BallSwells(f: Fabric, a: nat, k: nat)
    requires f.Valid() && f.Connected() && f.Node(a) && f.Ball(a, k) != f.Nodes()
    ensures f.Ball(a, k) < f.Ball(a, k + 1)
  {
    BallNodes(f, a, k);
    if f.Ball(a, k + 1) <= f.Ball(a, k) {
      forall x, y | x in f.Ball(a, k) && f.Node(x) && f.Node(y) && f.Adj(x, y) ensures y in f.Ball(a, k) {
        BallStep(f, a, k, x, y);
      }
      assert f.Closed(f.Ball(a, k));
      ConnectedFrom(f, a, f.Ball(a, k));
    }
  }

  lemma {:induction false} NodesSize(f: Fabric)
    requires f.first <= f.last
    ensures |f.Nodes()| == f.last - f.first
    decreases f.last
  {
    if f.last > f.first {
      var g := f.(last := f.last - 1);
      NodesSize(g);
      assert f.Nodes() == g.Nodes() + {f.last - 1};
    } else {
      assert f.Nodes() == {};
    }
  }
}
