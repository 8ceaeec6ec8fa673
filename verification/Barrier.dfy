/** The barriers of axiom-run: applications call, the master counts, slaves hand the release back. */
module Barrier {
  import opened FiniteSets

  /** The master's counter when one more arrival comes, and whether it releases the nodes. */
  function Count(nnodes: nat, counter: nat): (nat, bool)
    requires nnodes > 0
  {
    var c := (if counter == 0 then nnodes else counter) - 1;
    (c, c == 0)
  }

  /** The master's part of the service, one counter for each barrier id. */
  class Service {
    const nnodes: nat
    const counters: array<nat>

    constructor (nnodes: nat, maxId: nat)
      ensures this.nnodes == nnodes && fresh(counters) && counters.Length == maxId + 1
      ensures forall i :: 0 <= i <= maxId ==> counters[i] == 0
    {
      this.nnodes, counters := nnodes, new nat[maxId + 1](_ => 0);
    }

    /** A barrier message; ids out of bounds are refused. */
    method Receive(id: nat) returns (release: bool)
      requires nnodes > 0
      modifies counters
      ensures id >= counters.Length ==> !release && counters[..] == old(counters[..])
      ensures id < counters.Length ==>
                && counters[..] == old(counters[..])[id := counters[id]]
                && (counters[id], release) == Count(nnodes, old(counters[id]))
    {
      release := false;
      if id < counters.Length {
        if counters[id] == 0 {
          counters[id] := nnodes;
        }
        counters[id] := counters[id] - 1;
        release := counters[id] == 0;
      }
    }
  }

  // ----- one barrier id, seen across the whole network -----

  /** For each node the calls made and the calls returned; its arrivals on the way to the master,
      the releases on the way to its slave and the releases in the socket of the waiting call; then
      the master's counter, and what has happened so far. */
  datatype Round = Round(
    calls: seq<nat>, rets: seq<nat>, up: seq<nat>, down: seq<nat>, mail: seq<nat>,
    counter: nat, arrivals: nat, releases: nat, dropped: nat)

  datatype Act = Call(node: nat) | Arrive(node: nat) | Relay(node: nat) | Return(node: nat)

  predicate Sized(r: Round, nnodes: nat) {
    |r.calls| == |r.rets| == |r.up| == |r.down| == |r.mail| == nnodes
  }

  /** A node has the socket of this barrier open. */
  predicate Inside(r: Round, n: nat)
    requires n < |r.calls| && n < |r.rets|
  {
    r.calls[n] > r.rets[n]
  }

  predicate Enabled(r: Round, a: Act, nnodes: nat) {
    && Sized(r, nnodes)
    && a.node < nnodes
    && match a
       case Call(n) => !Inside(r, n)
       case Arrive(n) => r.up[n] > 0
       case Relay(n) => r.down[n] > 0
       case Return(n) => Inside(r, n) && r.mail[n] > 0
  }

  function Raised(s: seq<nat>): (t: seq<nat>)
    ensures |t| == |s| && forall i :: 0 <= i < |s| ==> t[i] == s[i] + 1
  {
    seq(|s|, i requires 0 <= i < |s| => s[i] + 1)
  }

  /** What a step does. A release for a node whose socket is closed is dropped; closing the socket
      discards what is left in it. */
  function Next(r: Round, a: Act, nnodes: nat): (t: Round)
    requires Enabled(r, a, nnodes)
    ensures Sized(t, nnodes)
  {
    match a
    case Call(n) =>
      r.(calls := r.calls[n := r.calls[n] + 1], up := r.up[n := r.up[n] + 1], mail := r.mail[n := 0])
    case Arrive(n) =>
      var (c, release) := Count(nnodes, r.counter);
      r.(up := r.up[n := r.up[n] - 1], counter := c, arrivals := r.arrivals + 1,
         down := if release then Raised(r.down) else r.down,
         releases := if release then r.releases + 1 else r.releases)
    case Relay(n) =>
      if Inside(r, n) then r.(down := r.down[n := r.down[n] - 1], mail := r.mail[n := r.mail[n] + 1])
      else r.(down := r.down[n := r.down[n] - 1], dropped := r.dropped + 1)
    case Return(n) =>
      r.(rets := r.rets[n := r.rets[n] + 1], mail := r.mail[n := 0])
  }

  function Zeros(n: nat): (s: seq<nat>)
    ensures |s| == n && forall i :: 0 <= i < n ==> s[i] == 0
  {
    seq(n, _ => 0)
  }

  function Start(nnodes: nat): Round {
    Round(Zeros(nnodes), Zeros(nnodes), Zeros(nnodes), Zeros(nnodes), Zeros(nnodes), 0, 0, 0, 0)
  }

  // ----- what every step keeps -----

  /** Where a node stands in the round: outside, calling, counted, or released. */
  predicate Outside(r: Round, n: nat)
    requires n < |r.calls| && Sized(r, |r.calls|)
  {
    r.calls[n] == r.rets[n] == r.releases && r.up[n] == r.down[n] == r.mail[n] == 0
  }

  predicate Calling(r: Round, n: nat)
    requires n < |r.calls| && Sized(r, |r.calls|)
  {
    r.calls[n] == r.rets[n] + 1 == r.releases + 1 && r.up[n] == 1 && r.down[n] == r.mail[n] == 0
  }

  predicate Counted(r: Round, n: nat)
    requires n < |r.calls| && Sized(r, |r.calls|)
  {
    r.calls[n] == r.rets[n] + 1 == r.releases + 1 && r.up[n] == r.down[n] == r.mail[n] == 0
  }

  predicate Released(r: Round, n: nat)
    requires n < |r.calls| && Sized(r, |r.calls|)
  {
    r.calls[n] == r.rets[n] + 1 == r.releases && r.up[n] == 0 && r.down[n] + r.mail[n] == 1
  }

  predicate Stands(r: Round, n: nat)
    requires n < |r.calls| && Sized(r, |r.calls|)
  {
    Outside(r, n) || Calling(r, n) || Counted(r, n) || Released(r, n)
  }

  ghost function CountedSet(r: Round): set<nat>
    requires Sized(r, |r.calls|)
  {
    set n | 0 <= n < |r.calls| && Counted(r, n)
  }

  /** The arrivals of the round that is not complete. */
  function Pending(counter: nat, nnodes: nat): int {
    if counter == 0 then 0 else nnodes - counter
  }

  ghost predicate Inv(r: Round, nnodes: nat) {
    && Sized(r, nnodes)
    && nnodes > 0
    && (forall n :: 0 <= n < nnodes ==> Stands(r, n))
    && r.counter < nnodes
    && |CountedSet(r)| == Pending(r.counter, nnodes)
    && r.arrivals == r.releases * nnodes + Pending(r.counter, nnodes)
    && r.dropped == 0
  }

  lemma StartInv(nnodes: nat)
    requires nnodes > 0
    ensures Inv(Start(nnodes), nnodes)
  {
    var r := Start(nnodes);
    assert forall n :: 0 <= n < nnodes ==> Outside(r, n);
    assert CountedSet(r) == {};
  }

  lemma CallKeeps(r: Round, n: nat, nnodes: nat)
    requires Inv(r, nnodes) && Enabled(r, Call(n), nnodes)
    ensures Inv(Next(r, Call(n), nnodes), nnodes)
  {
    var t := Next(r, Call(n), nnodes);
    assert Stands(r, n);
    assert Outside(r, n) && Calling(t, n);
    assert forall m :: 0 <= m < nnodes && m != n ==>
             (Stands(r, m) ==> Stands(t, m)) && (Counted(r, m) <==> Counted(t, m));
    assert CountedSet(t) == CountedSet(r);
  }

  lemma RelayKeeps(r: Round, n: nat, nnodes: nat)
    requires Inv(r, nnodes) && Enabled(r, Relay(n), nnodes)
    ensures Inv(Next(r, Relay(n), nnodes), nnodes)
  {
    var t := Next(r, Relay(n), nnodes);
    assert Stands(r, n);
    assert Released(r, n) && Released(t, n);
    assert forall m :: 0 <= m < nnodes && m != n ==>
             (Stands(r, m) ==> Stands(t, m)) && (Counted(r, m) <==> Counted(t, m));
    assert CountedSet(t) == CountedSet(r);
  }

  lemma ReturnKeeps(r: Round, n: nat, nnodes: nat)
    requires Inv(r, nnodes) && Enabled(r, Return(n), nnodes)
    ensures Inv(Next(r, Return(n), nnodes), nnodes)
  {
    var t := Next(r, Return(n), nnodes);
    assert Stands(r, n);
    assert Released(r, n) && Outside(t, n);
    assert forall m :: 0 <= m < nnodes && m != n ==>
             (Stands(r, m) ==> Stands(t, m)) && (Counted(r, m) <==> Counted(t, m));
    assert CountedSet(t) == CountedSet(r);
  }

  /** With this arrival the count is full exactly when every other node is counted already. */
  lemma ArriveCounts(r: Round, n: nat, nnodes: nat)
    requires Inv(r, nnodes) && Enabled(r, Arrive(n), nnodes)
    ensures Calling(r, n) && n !in CountedSet(r)
    ensures Count(nnodes, r.counter).1 ==> |CountedSet(r) + {n}| == nnodes
    ensures !Count(nnodes, r.counter).1 ==> |CountedSet(r) + {n}| == Pending(Count(nnodes, r.counter).0, nnodes)
  {
    assert Stands(r, n);
  }

  lemma OneMore(k: nat, n: nat)
    ensures (k + 1) * n == k * n + n
  {
  }

  /** The last arrival of a round releases everybody. */
  lemma ReleaseKeeps(r: Round, n: nat, nnodes: nat)
    requires Inv(r, nnodes) && Enabled(r, Arrive(n), nnodes) && Count(nnodes, r.counter).1
    ensures Inv(Next(r, Arrive(n), nnodes), nnodes)
  {
    var t := Next(r, Arrive(n), nnodes);
    ArriveCounts(r, n, nnodes);
    BoundedSize(CountedSet(r) + {n}, nnodes);
    forall m | 0 <= m < nnodes ensures Released(t, m) {
      assert m in CountedSet(r) + {n};
    }
    OneMore(r.releases, nnodes);
    assert CountedSet(t) == {};
  }

  lemma CountKeeps(r: Round, n: nat, nnodes: nat)
    requires Inv(r, nnodes) && Enabled(r, Arrive(n), nnodes) && !Count(nnodes, r.counter).1
    ensures Inv(Next(r, Arrive(n), nnodes), nnodes)
  {
    var t := Next(r, Arrive(n), nnodes);
    ArriveCounts(r, n, nnodes);
    assert Counted(t, n);
    assert forall m :: 0 <= m < nnodes && m != n ==>
             (Stands(r, m) ==> Stands(t, m)) && (Counted(r, m) <==> Counted(t, m));
    assert CountedSet(t) == CountedSet(r) + {n};
  }

  lemma Keeps(r: Round, a: Act, nnodes: nat)
    requires nnodes > 0 && Inv(r, nnodes) && Enabled(r, a, nnodes)
    ensures Inv(Next(r, a, nnodes), nnodes)
  {
    hide Inv, Next, Enabled;
    match a
    case Call(n) => CallKeeps(r, n, nnodes);
    case Arrive(n) =>
      if Count(nnodes, r.counter).1 {
        ReleaseKeeps(r, n, nnodes);
      } else {
        CountKeeps(r, n, nnodes);
      }
    case Relay(n) => RelayKeeps(r, n, nnodes);
    case Return(n) => ReturnKeeps(r, n, nnodes);
  }

  // ----- whole runs over all barrier ids -----

  /** A step of the network at one barrier id. */
  datatype Step = Step(id: nat, act: Act)

  ghost predicate Runs(rs: seq<Round>, steps: seq<Step>, nnodes: nat)
    decreases |steps|
  {
    steps == [] || (var s := steps[0];
                    s.id < |rs| && Enabled(rs[s.id], s.act, nnodes)
                    && Runs(rs[s.id := Next(rs[s.id], s.act, nnodes)], steps[1..], nnodes))
  }

  ghost function After(rs: seq<Round>, steps: seq<Step>, nnodes: nat): (ts: seq<Round>)
    requires Runs(rs, steps, nnodes)
    ensures |ts| == |rs|
    decreases |steps|
  {
    if steps == [] then rs
    else var s := steps[0]; After(rs[s.id := Next(rs[s.id], s.act, nnodes)], steps[1..], nnodes)
  }

  lemma {:induction false} RunKeeps(rs: seq<Round>, steps: seq<Step>, nnodes: nat)
    requires nnodes > 0 && (forall i :: 0 <= i < |rs| ==> Inv(rs[i], nnodes)) && Runs(rs, steps, nnodes)
    ensures forall i :: 0 <= i < |rs| ==> Inv(After(rs, steps, nnodes)[i], nnodes)
    decreases |steps|
  {
    hide Inv, Next, Enabled;
    if steps != [] {
      var s := steps[0];
      Keeps(rs[s.id], s.act, nnodes);
      RunKeeps(rs[s.id := Next(rs[s.id], s.act, nnodes)], steps[1..], nnodes);
    }
  }

  ghost predicate Reachable(r: Round, id: nat, ids: nat, steps: seq<Step>, nnodes: nat) {
    && nnodes > 0
    && id < ids
    && Runs(seq(ids, _ => Start(nnodes)), steps, nnodes)
    && r == After(seq(ids, _ => Start(nnodes)), steps, nnodes)[id]
  }

  lemma ReachableInv(r: Round, id: nat, ids: nat, steps: seq<Step>, nnodes: nat)
    requires Reachable(r, id, ids, steps, nnodes)
    ensures Inv(r, nnodes)
  {
    hide Inv;
    StartInv(nnodes);
    RunKeeps(seq(ids, _ => Start(nnodes)), steps, nnodes);
  }

  /** No node is back from its k-th call before every node has made its k-th call. */
  lemma NobodyEarly(r: Round, id: nat, ids: nat, steps: seq<Step>, nnodes: nat, n: nat, m: nat)
    requires Reachable(r, id, ids, steps, nnodes) && n < nnodes && m < nnodes
    ensures Sized(r, nnodes) && r.rets[n] <= r.calls[m]
  {
    ReachableInv(r, id, ids, steps, nnodes);
    assert Stands(r, n) && Stands(r, m);
  }

  /** The rounds that two nodes have completed differ by one at most, and so do their calls. */
  lemma InStep(r: Round, id: nat, ids: nat, steps: seq<Step>, nnodes: nat, n: nat, m: nat)
    requires Reachable(r, id, ids, steps, nnodes) && n < nnodes && m < nnodes
    ensures Sized(r, nnodes) && r.rets[n] <= r.rets[m] + 1 && r.calls[n] <= r.calls[m] + 1
    ensures r.rets[n] <= r.calls[n] <= r.rets[n] + 1
  {
    ReachableInv(r, id, ids, steps, nnodes);
    assert Stands(r, n) && Stands(r, m);
  }

  /** The master releases exactly at the multiples of the number of nodes, and no release is lost. */
  lemma ReleasesExact(r: Round, id: nat, ids: nat, steps: seq<Step>, nnodes: nat)
    requires Reachable(r, id, ids, steps, nnodes)
    ensures r.releases * nnodes <= r.arrivals < (r.releases + 1) * nnodes
    ensures r.dropped == 0
  {
    ReachableInv(r, id, ids, steps, nnodes);
    assert (r.releases + 1) * nnodes == r.releases * nnodes + nnodes;
  }

  /** When every node is inside the call, something can be delivered: calls only wait for nodes that
      have not called. */
  lemma NoDeadlock(r: Round, id: nat, ids: nat, steps: seq<Step>, nnodes: nat)
    requires Reachable(r, id, ids, steps, nnodes)
    requires Sized(r, nnodes) && forall n :: 0 <= n < nnodes ==> Inside(r, n)
    ensures exists a :: Enabled(r, a, nnodes) && !a.Call?
  {
    ReachableInv(r, id, ids, steps, nnodes);
    if n :| 0 <= n < nnodes && !Counted(r, n) {
      assert Stands(r, n);
      var a := if Calling(r, n) then Arrive(n) else if r.down[n] > 0 then Relay(n) else Return(n);
      assert Enabled(r, a, nnodes);
    } else {
      BoundedSize(CountedSet(r), nnodes);
      assert false;
    }
  }

  /** What is still to be delivered: every step but a call makes it smaller. */
  ghost function Undelivered(r: Round, k: nat): nat
    requires Sized(r, |r.calls|) && k <= |r.calls|
  {
    if k == 0 then 0
    else Undelivered(r, k - 1) + (if Counted(r, k - 1) then 3 else if Calling(r, k - 1) then 4
                                  else if Released(r, k - 1) then 1 + r.down[k - 1] else 0)
  }

  lemma {:induction false} LessDelivered(r: Round, t: Round, n: nat, k: nat)
    requires Sized(r, |r.calls|) && Sized(t, |r.calls|) && k <= |r.calls| && n < |r.calls|
    requires forall m :: 0 <= m < |r.calls| ==>
               Undelivered(t, m + 1) - Undelivered(t, m) + (if m == n then 1 else 0)
               <= Undelivered(r, m + 1) - Undelivered(r, m)
    ensures Undelivered(t, k) + (if n < k then 1 else 0) <= Undelivered(r, k)
  {
    if k > 0 {
      LessDelivered(r, t, n, k - 1);
    }
  }

  /** Deliveries end: every step but a call makes the undelivered smaller. */
  lemma Delivers(r: Round, a: Act, nnodes: nat)
    requires Inv(r, nnodes) && Enabled(r, a, nnodes) && !a.Call?
    ensures Undelivered(Next(r, a, nnodes), nnodes) < Undelivered(r, nnodes)
  {
    var t, n := Next(r, a, nnodes), a.node;
    assert Stands(r, n);
    Keeps(r, a, nnodes);
    forall m | 0 <= m < nnodes
      ensures Undelivered(t, m + 1) - Undelivered(t, m) + (if m == n then 1 else 0)
              <= Undelivered(r, m + 1) - Undelivered(r, m)
    {
      assert Stands(r, m) && Stands(t, m);
    }
    LessDelivered(r, t, n, nnodes);
  }
}
