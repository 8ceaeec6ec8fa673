/** The invariant of delivery and flood, and that every step keeps it. */
module InstallInv {
  import opened Networks
  import opened Delivery
  import opened Install

  function Zeros(plan: Plan): seq<bv8> {
    seq(plan.size, _ => 0)
  }

  /** What slave b ends up with: its row, and the greatest id in it. */
  ghost function Final(plan: Plan, b: nat): (seq<bv8>, nat)
    requires plan.Valid() && b < plan.net.boards
  {
    Read(Zeros(plan), 0, Entries(plan.rows[b], 0, plan.last))
  }

  // ----- delivery -----

  /** A stream of row messages that ends with END_INFO. */
  predicate Stream(ms: seq<RowMsg>) {
    |ms| > 0 && ms[|ms| - 1].EndInfo? && forall i :: 0 <= i < |ms| - 1 ==> ms[i].Info?
  }

  ghost predicate SlaveOk(plan: Plan, s: State, b: nat)
    requires plan.Valid() && Shape(plan, s) && b < |s.boards|
  {
    var bd, flow := s.boards[b], s.mail[b] + For(b, s.out);
    match bd.pc
    case Receiving(max) =>
      && |bd.table| == plan.size && Stream(flow)
      && Read(bd.table, max, flow[..|flow| - 1]) == Final(plan, b)
    case WaitSet(max) => flow == [] && bd.table == Final(plan, b).0 && max == Greater(plan.ids[b], Final(plan, b).1)
    case Gathering(_) => false
    case _ => flow == []
  }

  ghost predicate Delivering(plan: Plan, s: State)
    requires plan.Valid() && Shape(plan, s)
  {
    && (forall b :: 0 <= b < |s.boards| && b != plan.master ==> SlaveOk(plan, s, b))
    && s.mail[plan.master] == [] && For(plan.master, s.out) == []
  }

  // ----- the barrier -----

  ghost predicate SlaveId(plan: Plan, k: nat) {
    exists b :: 0 <= b < |plan.ids| && b != plan.master && plan.ids[b] == k
  }

  ghost predicate ReplyOk(plan: Plan, s: State, b: nat, received: set<nat>)
    requires Shape(plan, s) && b < |s.boards|
  {
    var k := plan.ids[b];
    (if k in received then 1 else 0) + s.replies[k] == if s.boards[b].pc.Receiving? then 0 else 1
  }

  /** Before the flood: replies and received ids are those of the slaves that have read their rows. */
  ghost predicate Barrier(plan: Plan, s: State)
    requires plan.Valid() && Shape(plan, s)
  {
    var pc := s.boards[plan.master].pc;
    if pc.Gathering? then
      && (forall b :: 0 <= b < |s.boards| && b != plan.master ==>
            ReplyOk(plan, s, b, pc.received) && (s.boards[b].pc.Receiving? || s.boards[b].pc.WaitSet?))
      && (forall k :: k in pc.received || k in s.replies ==> SlaveId(plan, k))
      && s.taken == {} && (forall p :: p in s.chan ==> s.chan[p] == 0)
    else
      && s.out == [] && s.replies == multiset{}
      && (forall b :: 0 <= b < |s.boards| ==> !s.boards[b].pc.Receiving?)
      && !pc.Receiving? && !pc.WaitSet?
  }

  // ----- the flood -----

  ghost function PortsBelow(net: Net, b: nat, i: nat): set<Port> {
    set p | p in net.wire && p.board == b && p.iface < i
  }

  ghost function PortsOf(net: Net, b: nat): set<Port> {
    set p | p in net.wire && p.board == b
  }

  ghost function TakenAt(s: State, b: nat): set<Port> {
    set p | p in s.taken && p.board == b
  }

  predicate Sent(s: State, p: Port)
    requires p.board < |s.boards|
  {
    match s.boards[p.board].pc
    case Flood(i, _) => p.iface < i
    case Drain(_) => true
    case Done => true
    case _ => false
  }

  /** Each cable end carries one SET_ROUTING in all: unsent, under way or taken. */
  ghost predicate LinkOk(plan: Plan, s: State, p: Port)
    requires plan.net.Valid() && Shape(plan, s) && p in plan.net.wire
  {
    s.chan[p] + (if p in s.taken then 1 else 0) == if Sent(s, plan.net.wire[p]) then 1 else 0
  }

  ghost predicate CountOk(plan: Plan, s: State, b: nat)
    requires Shape(plan, s) && b < |s.boards|
  {
    var taken, deg := |TakenAt(s, b)|, |PortsOf(plan.net, b)|;
    match s.boards[b].pc
    case Flood(i, sent) =>
      i <= plan.net.ifaces && sent == |PortsBelow(plan.net, b, i)| && taken == if b == plan.master then 0 else 1
    case Drain(left) => left > 0 && taken + left == deg
    case Done => taken == deg
    case _ => taken == 0
  }

  ghost predicate Flooding(plan: Plan, s: State)
    requires plan.net.Valid() && Shape(plan, s)
  {
    && s.taken <= plan.net.wire.Keys
    && (forall p :: p in plan.net.wire ==> LinkOk(plan, s, p))
    && (forall b :: 0 <= b < |s.boards| ==> CountOk(plan, s, b))
  }

  // ----- the registers -----

  ghost function Goal(plan: Plan, b: nat): seq<bv8>
    requires plan.Valid() && b < plan.net.boards
  {
    WithLoopback(plan, b, if b == plan.master then plan.rows[b] else Final(plan, b).0)
  }

  predicate Written(pc: Pc) {
    pc.Flood? || pc.Drain? || pc.Done?
  }

  ghost predicate RegsOk(plan: Plan, s: State, b: nat)
    requires plan.Valid() && Shape(plan, s) && b < |s.boards|
  {
    var bd := s.boards[b];
    if Written(bd.pc) then bd.writes == 1 && bd.regs == Goal(plan, b)
    else bd.writes == 0 && (b == plan.master ==> bd.table == plan.rows[b])
  }

  ghost predicate Registers(plan: Plan, s: State)
    requires plan.Valid() && Shape(plan, s)
  {
    forall b :: 0 <= b < |s.boards| ==> RegsOk(plan, s, b)
  }

  ghost predicate Inv(plan: Plan, s: State) {
    && plan.Valid() && plan.net.Valid() && Shape(plan, s)
    && Delivering(plan, s) && Barrier(plan, s) && Flooding(plan, s) && Registers(plan, s)
  }

  // ----- the start -----

  lemma {:induction false} ForConcat(b: nat, x: seq<(nat, RowMsg)>, y: seq<(nat, RowMsg)>)
    ensures For(b, x + y) == For(b, x) + For(b, y)
  {
    if x == [] {
      assert x + y == y;
    } else {
      ForConcat(b, x[1..], y);
      assert (x + y)[1..] == x[1..] + y;
      var head := if x[0].0 == b then [x[0].1] else [];
      assert head + (For(b, x[1..]) + For(b, y)) == (head + For(b, x[1..])) + For(b, y);
    }
  }

  lemma {:induction false} ForAddressed(b: nat, c: nat, ms: seq<RowMsg>)
    ensures For(b, Addressed(c, ms)) == if b == c then ms else []
  {
    if ms != [] {
      ForAddressed(b, c, ms[1..]);
      assert Addressed(c, ms)[1..] == Addressed(c, ms[1..]);
    }
  }

  lemma ForNone(b: nat)
    ensures For(b, []) == []
  {
  }

  lemma {:induction false} ForRows(plan: Plan, b: nat, c: nat)
    requires plan.Valid() && c <= plan.net.boards && b < plan.net.boards
    ensures For(b, AllRows(plan, c)) == if b < c || b == plan.master then [] else Entries(plan.rows[b], 0, plan.last)
    decreases plan.net.boards - c
  {
    hide For, Entries;
    ForNone(b);
    if c < plan.net.boards {
      ForRows(plan, b, c + 1);
      ForAddressed(b, c, Entries(plan.rows[c], 0, plan.last));
      var rows := if c == plan.master then [] else Addressed(c, Entries(plan.rows[c], 0, plan.last));
      ForConcat(b, rows, AllRows(plan, c + 1));
    }
  }

  lemma {:induction false} ForEnds(plan: Plan, b: nat, c: nat)
    requires c <= plan.net.boards && b < plan.net.boards
    ensures For(b, AllEnds(plan, c)) == if b < c || b == plan.master then [] else [EndInfo]
    decreases plan.net.boards - c
  {
    if c < plan.net.boards {
      ForEnds(plan, b, c + 1);
      ForConcat(b, if c == plan.master then [] else [(c, EndInfo)], AllEnds(plan, c + 1));
      if c != plan.master {
        assert [(c, EndInfo)] == Addressed(c, [EndInfo]);
        ForAddressed(b, c, [EndInfo]);
      }
    }
  }

  lemma {:induction false} EntriesInfo(row: seq<bv8>, k: nat, last: nat)
    requires k <= last <= |row|
    ensures forall i :: 0 <= i < |Entries(row, k, last)| ==> Entries(row, k, last)[i].Info?
    decreases last - k
  {
    if k < last {
      EntriesInfo(row, k + 1, last);
    }
  }

  lemma InitSlave(plan: Plan, s: State, b: nat)
    requires plan.Valid() && Init(plan, s) && b < |s.boards| && b != plan.master
    ensures SlaveOk(plan, s, b)
  {
    var ms := Entries(plan.rows[b], 0, plan.last);
    ForConcat(b, AllRows(plan, 0), AllEnds(plan, 0));
    ForRows(plan, b, 0);
    ForEnds(plan, b, 0);
    EntriesInfo(plan.rows[b], 0, plan.last);
    assert [] + (ms + [EndInfo]) == ms + [EndInfo];
    assert (ms + [EndInfo])[..|ms|] == ms;
    assert s.boards[b].table == Zeros(plan);
  }

  lemma InitInv(plan: Plan, s: State)
    requires plan.Valid() && Init(plan, s)
    ensures Inv(plan, s)
  {
    hide SlaveOk, AllRows, AllEnds, For, WithLoopback;
    forall b | 0 <= b < |s.boards| && b != plan.master ensures SlaveOk(plan, s, b) {
      InitSlave(plan, s, b);
    }
    ForConcat(plan.master, AllRows(plan, 0), AllEnds(plan, 0));
    ForRows(plan, plan.master, 0);
    ForEnds(plan, plan.master, 0);
    forall b | 0 <= b < |s.boards| ensures CountOk(plan, s, b) {
      assert TakenAt(s, b) == {};
    }
  }
}
