/** axiom-traceroute: a probe that every node on the way answers, and the client that counts the answers. */
module Traceroute {
  import opened Fabrics
  import opened FiniteSets
  import opened Options
  import opened RouteTheorems

  datatype Probe = Probe(src: nat, dst: nat, step: nat)

  /** An answer of `node` that is sent to the node `to`. */
  datatype Reply = Reply(node: nat, step: nat, to: nat)

  /** A node answers a probe with its step, and passes it on unless it is the destination. */
  method HandleProbe(node: nat, probe: Probe) returns (reply: Reply, onward: Option<Probe>)
    ensures (reply, onward) == Answer(node, probe)
  {
    var step := probe.step + 1;
    reply, onward := Reply(node, step, probe.src), None;
    if node != probe.dst {
      onward := Some(Probe(probe.src, probe.dst, step));
    }
  }

  function Answer(node: nat, probe: Probe): (Reply, Option<Probe>) {
    var step := probe.step + 1;
    (Reply(node, step, probe.src), if node == probe.dst then None else Some(probe.(step := step)))
  }

  /** The answers to a probe that visits the nodes of a path, for as long as it is passed on. */
  function Answers(path: seq<nat>, probe: Probe): seq<Reply> {
    if path == [] then []
    else
      var (reply, onward) := Answer(path[0], probe);
      [reply] + match onward case None => [] case Some(p) => Answers(path[1..], p)
  }

  lemma {:induction false} AnswersAlong(path: seq<nat>, probe: Probe)
    requires path != [] && forall i :: 0 <= i < |path| ==> (path[i] == probe.dst <==> i == |path| - 1)
    ensures var rs := Answers(path, probe);
            |rs| == |path| && forall i :: 0 <= i < |path| ==> rs[i] == Reply(path[i], probe.step + 1 + i, probe.src)
    decreases |path|
  {
    if |path| > 1 {
      assert path[0] != probe.dst;
      AnswersAlong(path[1..], probe.(step := probe.step + 1));
    }
  }

  /** By complete tables the probe is answered once by each node on its way, with the steps from one
      to the distance, to the node that sent it, and the destination is the last to answer. */
  lemma ProbeExact(f: Fabric, rows: seq<seq<bv8>>, a: nat, d: nat, path: seq<nat>, k: nat)
    requires Complete(f, rows) && Travels(f, rows, d, [a] + path) && f.At(a, d, k) && a != d
    requires path != [] && path[|path| - 1] == d
    ensures var rs := Answers(path, Probe(a, d, 0));
            && |rs| == |path| == k
            && (forall i :: 0 <= i < k ==> rs[i].step == i + 1 && rs[i].node == path[i] && rs[i].to == a)
            && (forall i :: 0 <= i < k ==> (rs[i].node == d <==> i == k - 1))
  {
    hide Complete, Travels, Fabric.At, Answers;
    forall i | 0 <= i < |path| ensures i < k && (path[i] == d <==> i == k - 1) {
      OnTheWay(f, rows, a, d, path, k, i);
    }
    assert |path| == k;
    AnswersAlong(path, Probe(a, d, 0));
  }

  /** The i-th node on the way is the destination exactly when the distance is used up. */
  lemma OnTheWay(f: Fabric, rows: seq<seq<bv8>>, a: nat, d: nat, path: seq<nat>, k: nat, i: nat)
    requires Complete(f, rows) && Travels(f, rows, d, [a] + path) && f.At(a, d, k) && i < |path|
    ensures i < k && (path[i] == d <==> i == k - 1)
  {
    hide Complete, MayForward, Fabric.At;
    var way := [a] + path;
    var part := way[..i + 2];
    assert part[i + 1] == path[i] && part[0] == a;
    assert Travels(f, rows, d, part) by {
      forall j | 0 <= j < |part| - 1 ensures MayForward(f, rows, d, part[j], part[j + 1]) {
        assert MayForward(f, rows, d, way[j], way[j + 1]);
      }
    }
    hide Travels;
    ShortestPath(f, rows, d, part, k);
  }

  lemma {:induction false} BallSize(f: Fabric, a: nat, d: nat, k: nat, j: nat)
    requires f.Valid() && f.Connected() && f.Node(a) && f.Node(d) && f.At(a, d, k) && j <= k
    ensures |f.Ball(a, j)| > j
  {
    hide Fabric.Connected, Fabric.Valid, Fabric.Ball, Fabric.At, Fabric.Nodes;
    BallNodes(f, a, j);
    if j > 0 {
      BallSize(f, a, d, k, j - 1);
      Nearer(f, a, d, k, j - 1);
      BallSwells(f, a, j - 1);
      SubsetSize(f.Ball(a, j - 1), f.Ball(a, j));
    }
  }

  /** A distance is less than the number of nodes, so the client's first bound is never met. */
  lemma DistanceBound(f: Fabric, a: nat, d: nat, k: nat)
    requires f.Valid() && f.Connected() && f.Node(a) && f.Node(d) && f.At(a, d, k)
    ensures k < f.last - f.first
  {
    hide Fabric.Connected;
    BallSize(f, a, d, k, k);
    BallNodes(f, a, k);
    NodesSize(f);
    SubsetSize(f.Ball(a, k), f.Nodes());
  }

  lemma Nearer(f: Fabric, a: nat, d: nat, k: nat, j: nat)
    requires f.At(a, d, k) && j < k && f.Node(d)
    ensures f.Ball(a, j) != f.Nodes()
  {
    hide Fabric.Ball;
    BallGrows(f, a, j, k - 1);
    assert d in f.Nodes();
  }

  /** The client's loop. The answers are all there, in any order; the loop takes them one by one and
      stops after the last of them, with their number, and not before. */
  method CountAnswers(dest: nat, nodesMax: nat, arrivals: seq<Reply>) returns (received: nat)
    requires |arrivals| > 0 && Trail(arrivals, dest) && |arrivals| <= nodesMax
    ensures received == |arrivals|
  {
    var expected := nodesMax;
    received := 0;
    while received == 0 || received < expected
      invariant received <= |arrivals|
      invariant expected == if Answered(arrivals[..received], dest) then |arrivals| else nodesMax
      invariant !Answered(arrivals[..received], dest) ==> received < |arrivals|
      decreases |arrivals| - received
    {
      var reply := arrivals[received];
      assert arrivals[..received + 1] == arrivals[..received] + [reply];
      received := received + 1;
      if reply.node == dest {
        expected := reply.step;
      }
    }
  }

  predicate Answered(rs: seq<Reply>, dest: nat) {
    exists i :: 0 <= i < |rs| && rs[i].node == dest
  }

  /** The destination is among the answers, with their number as its step. */
  predicate Trail(rs: seq<Reply>, dest: nat) {
    && Answered(rs, dest)
    && forall i :: 0 <= i < |rs| && rs[i].node == dest ==> rs[i].step == |rs|
  }

  /** The answers that are sent to node a. */
  function SentTo(rs: seq<Reply>, a: nat): seq<Reply>
    decreases |rs|
  {
    if rs == [] then [] else (if rs[0].to == a then [rs[0]] else []) + SentTo(rs[1..], a)
  }

  lemma {:induction false} AllSentTo(rs: seq<Reply>, a: nat)
    requires forall i :: 0 <= i < |rs| ==> rs[i].to == a
    ensures SentTo(rs, a) == rs
  {
    if rs != [] {
      AllSentTo(rs[1..], a);
    }
  }

  /** The answers to a probe that are sent to the client, in whatever order they arrive, are what its
      loop needs: it reports the distance. */
  lemma TraceExact(f: Fabric, rows: seq<seq<bv8>>, a: nat, d: nat, path: seq<nat>, k: nat, arrivals: seq<Reply>,
                   nodesMax: nat)
    requires f.Valid() && f.Connected() && f.last - f.first <= nodesMax
    requires Complete(f, rows) && Travels(f, rows, d, [a] + path) && f.At(a, d, k) && a != d
    requires path != [] && path[|path| - 1] == d
    requires multiset(arrivals) == multiset(SentTo(Answers(path, Probe(a, d, 0)), a))
    ensures 0 < |arrivals| == k <= nodesMax && Trail(arrivals, d)
  {
    hide Complete, Travels, Fabric.At, Fabric.Connected, Fabric.Valid, Answers;
    var rs := Answers(path, Probe(a, d, 0));
    ProbeExact(f, rows, a, d, path, k);
    AllSentTo(rs, a);
    assert f.Node(a) && f.Node(d) by { Ends(f, rows, a, d, path); }
    DistanceBound(f, a, d, k);
    assert |arrivals| == |multiset(arrivals)| == |multiset(rs)| == |rs|;
    AtZero(f, a, d, k);
    assert rs[k - 1] in multiset(rs);
    assert rs[k - 1] in arrivals;
    forall i | 0 <= i < |arrivals| && arrivals[i].node == d ensures arrivals[i].step == k {
      assert arrivals[i] in multiset(rs);
      assert arrivals[i] in rs;
    }
  }

  lemma Ends(f: Fabric, rows: seq<seq<bv8>>, a: nat, d: nat, path: seq<nat>)
    requires Complete(f, rows) && Travels(f, rows, d, [a] + path)
    ensures f.Node(a) && f.Node(d)
  {
  }
}
