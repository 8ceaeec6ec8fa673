/** Every step of delivery and flood keeps the invariant. */
module InstallSteps {
  import opened FiniteSets
  import opened Networks
  import opened Delivery
  import opened Install
  import opened InstallInv

  // ----- delivery -----

  lemma SendRowStep(plan: Plan, s: State)
    requires Inv(plan, s) && Enabled(plan, s, SendRow)
    ensures Inv(plan, Next(plan, s, SendRow))
  {
    hide Plan.Valid, Flooding, Registers, Barrier, SlaveOk;
    var r := Next(plan, s, SendRow);
    var (b, m) := s.out[0];
    forall c | 0 <= c < |s.boards| ensures r.mail[c] + For(c, r.out) == s.mail[c] + For(c, s.out) {
      if c == b {
        assert (s.mail[c] + [m]) + For(c, s.out[1..]) == s.mail[c] + ([m] + For(c, s.out[1..]));
      }
    }
    forall c | 0 <= c < |s.boards| && c != plan.master ensures SlaveOk(plan, r, c) {
      SameSlave(plan, s, r, c);
    }
    SameRegisters(plan, s, r);
    SameFlood(plan, s, r);
    assert Barrier(plan, r) by {
      SendRowBarrier(plan, s);
    }
  }

  lemma SameSlave(plan: Plan, s: State, r: State, b: nat)
    requires plan.Valid() && Shape(plan, s) && Shape(plan, r) && b < |s.boards| && SlaveOk(plan, s, b)
    requires r.mail[b] + For(b, r.out) == s.mail[b] + For(b, s.out)
    requires r.boards[b] == s.boards[b]
             || (!s.boards[b].pc.Receiving? && !r.boards[b].pc.Receiving? && !r.boards[b].pc.Gathering?
                && !r.boards[b].pc.WaitSet?)
    ensures SlaveOk(plan, r, b)
  {
    hide For, Final;
  }

  lemma SameRegisters(plan: Plan, s: State, r: State)
    requires plan.Valid() && Shape(plan, s) && Shape(plan, r) && Registers(plan, s)
    requires forall b :: 0 <= b < |s.boards| ==>
               Written(r.boards[b].pc) == Written(s.boards[b].pc)
               && r.boards[b].writes == s.boards[b].writes && r.boards[b].regs == s.boards[b].regs
               && (b == plan.master ==> r.boards[b].table == s.boards[b].table)
    ensures Registers(plan, r)
  {
    hide Goal;
    forall b | 0 <= b < |r.boards| ensures RegsOk(plan, r, b) {
      assert RegsOk(plan, s, b);
    }
  }

  /** Steps that do not touch the flood. */
  lemma SameFlood(plan: Plan, s: State, r: State)
    requires plan.net.Valid() && Shape(plan, s) && Shape(plan, r) && Flooding(plan, s)
    requires r.chan == s.chan && r.taken == s.taken
    requires forall b :: 0 <= b < |s.boards| ==>
               r.boards[b].pc == s.boards[b].pc || (!Written(s.boards[b].pc) && !Written(r.boards[b].pc))
    ensures Flooding(plan, r)
  {
    forall p | p in plan.net.wire ensures LinkOk(plan, r, p) {
      assert LinkOk(plan, s, p);
    }
    forall b | 0 <= b < |r.boards| ensures CountOk(plan, r, b) {
      assert CountOk(plan, s, b);
      assert TakenAt(r, b) == TakenAt(s, b);
    }
  }

  lemma SendRowBarrier(plan: Plan, s: State)
    requires Inv(plan, s) && Enabled(plan, s, SendRow)
    ensures Barrier(plan, Next(plan, s, SendRow))
  {
    hide Flooding, Registers, Delivering;
    var r := Next(plan, s, SendRow);
    forall b | 0 <= b < |s.boards| && b != plan.master ensures ReplyOk(plan, r, b, s.boards[plan.master].pc.received) {
      assert ReplyOk(plan, s, b, s.boards[plan.master].pc.received);
    }
  }

  lemma TakeRowSlave(plan: Plan, s: State, b: nat)
    requires plan.Valid() && Shape(plan, s) && Enabled(plan, s, TakeRow(b)) && SlaveOk(plan, s, b)
    ensures SlaveOk(plan, Next(plan, s, TakeRow(b)), b)
  {
    hide For, Final;
    var r := Next(plan, s, TakeRow(b));
    var flow := s.mail[b] + For(b, s.out);
    assert r.mail[b] + For(b, r.out) == flow[1..];
    assert flow[0] == s.mail[b][0];
    if flow[0].EndInfo? {
      assert |flow| == 1 && flow[..0] == [];
    } else {
      assert flow[..|flow| - 1][1..] == flow[1..][..|flow| - 2];
      SkipUnknown(plan, s.boards[b].table, s.boards[b].pc.max, flow[..|flow| - 1]);
    }
  }

  /** One message read, whether or not it fits the table. */
  lemma SkipUnknown(plan: Plan, table: seq<bv8>, max: nat, ms: seq<RowMsg>)
    requires |ms| > 0 && ms[0].Info?
    ensures Read(table, max, ms) ==
              if ms[0].node < |table| then
                Read(table[ms[0].node := ms[0].mask], if max < ms[0].node then ms[0].node else max, ms[1..])
              else Read(table, max, ms[1..])
  {
  }

  lemma TakeRowStep(plan: Plan, s: State, b: nat)
    requires Inv(plan, s) && Enabled(plan, s, TakeRow(b))
    ensures Inv(plan, Next(plan, s, TakeRow(b)))
  {
    hide Plan.Valid, Flooding, Registers, SlaveOk, For;
    var r := Next(plan, s, TakeRow(b));
    assert b != plan.master;
    forall c | 0 <= c < |s.boards| && c != plan.master ensures SlaveOk(plan, r, c) {
      if c == b {
        TakeRowSlave(plan, s, b);
      } else {
        SameSlave(plan, s, r, c);
      }
    }
    SameRegisters(plan, s, r);
    SameFlood(plan, s, r);
    TakeRowBarrier(plan, s, b);
  }

  lemma TakeRowBarrier(plan: Plan, s: State, b: nat)
    requires Inv(plan, s) && Enabled(plan, s, TakeRow(b))
    ensures Barrier(plan, Next(plan, s, TakeRow(b)))
  {
    hide Flooding, Registers, Delivering;
    var r := Next(plan, s, TakeRow(b));
    var got := s.boards[plan.master].pc.received;
    forall c | 0 <= c < |s.boards| && c != plan.master ensures ReplyOk(plan, r, c, got) {
      assert ReplyOk(plan, s, c, got);
      assert c < b ==> plan.ids[c] != plan.ids[b];
      assert b < c ==> plan.ids[b] != plan.ids[c];
    }
    forall k | k in got || k in r.replies ensures SlaveId(plan, k) {
      if k == plan.ids[b] {
        assert b != plan.master;
      } else {
        assert k in got || k in s.replies;
      }
    }
  }

  // ----- the barrier -----

  lemma TakeReplyStep(plan: Plan, s: State, k: nat)
    requires Inv(plan, s) && Enabled(plan, s, TakeReply(k))
    ensures Inv(plan, Next(plan, s, TakeReply(k)))
  {
    hide Plan.Valid, Flooding, Registers, SlaveOk, For, Barrier;
    var r := Next(plan, s, TakeReply(k));
    forall c | 0 <= c < |s.boards| && c != plan.master ensures SlaveOk(plan, r, c) {
      SameSlave(plan, s, r, c);
    }
    SameRegisters(plan, s, r);
    SameFlood(plan, s, r);
    TakeReplyBarrier(plan, s, k);
  }

  lemma TakeReplyBarrier(plan: Plan, s: State, k: nat)
    requires Inv(plan, s) && Enabled(plan, s, TakeReply(k))
    ensures Barrier(plan, Next(plan, s, TakeReply(k)))
  {
    hide Flooding, Registers, Delivering;
    var r := Next(plan, s, TakeReply(k));
    var got := s.boards[plan.master].pc.received;
    forall c | 0 <= c < |s.boards| && c != plan.master ensures ReplyOk(plan, r, c, got + {k}) {
      assert ReplyOk(plan, s, c, got);
    }
    forall j | j in got + {k} || j in r.replies ensures SlaveId(plan, j) {
      assert j in got || j in s.replies;
    }
  }

  ghost function SlaveIds(plan: Plan, n: nat): set<nat>
    requires n <= |plan.ids|
  {
    set b | 0 <= b < n && b != plan.master :: plan.ids[b]
  }

  ghost predicate DistinctIds(plan: Plan) {
    forall b, c :: 0 <= b < c < |plan.ids| ==> plan.ids[b] != plan.ids[c]
  }

  lemma SlaveIdsNext(plan: Plan, n: nat)
    requires 0 < n <= |plan.ids| && DistinctIds(plan)
    ensures n - 1 == plan.master ==> SlaveIds(plan, n) == SlaveIds(plan, n - 1)
    ensures n - 1 != plan.master ==> SlaveIds(plan, n) == SlaveIds(plan, n - 1) + {plan.ids[n - 1]}
    ensures plan.ids[n - 1] !in SlaveIds(plan, n - 1)
  {
  }

  lemma OneMoreElement(s: set<nat>, x: nat)
    requires x !in s
    ensures |s + {x}| == |s| + 1
  {
  }

  lemma {:induction false} SlaveIdsSize(plan: Plan, n: nat)
    requires n <= |plan.ids| && DistinctIds(plan)
    ensures |SlaveIds(plan, n)| == if plan.master < n then n - 1 else n
  {
    if n == 0 {
      assert SlaveIds(plan, 0) == {};
    } else {
      hide SlaveIds, DistinctIds;
      SlaveIdsSize(plan, n - 1);
      SlaveIdsNext(plan, n);
      OneMoreElement(SlaveIds(plan, n - 1), plan.ids[n - 1]);
    }
  }

  /** When as many replies are in as there are slaves, every slave has its table and none is owed. */
  lemma BarrierPassed(plan: Plan, s: State)
    requires Inv(plan, s) && Enabled(plan, s, StartFlood)
    ensures forall b :: 0 <= b < |s.boards| && b != plan.master ==> s.boards[b].pc.WaitSet?
    ensures s.replies == multiset{}
  {
    hide Flooding, Registers, Delivering;
    var got := s.boards[plan.master].pc.received;
    forall k | k in got ensures k in SlaveIds(plan, |plan.ids|) {
      assert SlaveId(plan, k);
    }
    SlaveIdsSize(plan, |plan.ids|);
    SubsetSize(got, SlaveIds(plan, |plan.ids|));
    assert got == SlaveIds(plan, |plan.ids|);
    forall b | 0 <= b < |s.boards| && b != plan.master ensures s.boards[b].pc.WaitSet? && s.replies[plan.ids[b]] == 0 {
      assert plan.ids[b] in got;
      assert ReplyOk(plan, s, b, got);
    }
    forall k ensures s.replies[k] == 0 {
      assert k in s.replies ==> SlaveId(plan, k);
    }
  }

  lemma StartFloodStep(plan: Plan, s: State)
    requires Inv(plan, s) && Enabled(plan, s, StartFlood)
    ensures Inv(plan, Next(plan, s, StartFlood))
  {
    hide Plan.Valid, SlaveOk, For, WithLoopback, LinkOk, CountOk, Final;
    var r := Next(plan, s, StartFlood);
    BarrierPassed(plan, s);
    forall c | 0 <= c < |s.boards| && c != plan.master ensures SlaveOk(plan, r, c) {
      SameSlave(plan, s, r, c);
    }
    StartFloodFlood(plan, s);
    forall b | 0 <= b < |r.boards| ensures RegsOk(plan, r, b) {
      assert RegsOk(plan, s, b);
      WriteRegs(plan, s, r, b);
    }
    assert Barrier(plan, r);
  }

  /** A board that writes its table for the first time; the others keep their registers. */
  lemma WriteRegs(plan: Plan, s: State, r: State, b: nat)
    requires plan.Valid() && Shape(plan, s) && Shape(plan, r) && b < |s.boards| && RegsOk(plan, s, b)
    requires || r.boards[b] == s.boards[b]
             || (!Written(s.boards[b].pc) && r.boards[b] == Write(plan, b, s.boards[b])
                 && s.boards[b].table == if b == plan.master then plan.rows[b] else Final(plan, b).0)
    ensures RegsOk(plan, r, b)
  {
    hide Final;
  }

  lemma StartFloodFlood(plan: Plan, s: State)
    requires Inv(plan, s) && Enabled(plan, s, StartFlood)
    ensures Flooding(plan, Next(plan, s, StartFlood))
  {
    hide Registers, Delivering, Barrier;
    var r := Next(plan, s, StartFlood);
    forall p | p in plan.net.wire ensures LinkOk(plan, r, p) {
      assert LinkOk(plan, s, p);
    }
    forall b | 0 <= b < |r.boards| ensures CountOk(plan, r, b) {
      assert CountOk(plan, s, b);
      assert TakenAt(r, b) == TakenAt(s, b);
      assert PortsBelow(plan.net, b, 0) == {};
    }
  }

  // ----- the flood -----

  lemma FloodAfterBarrier(plan: Plan, s: State, b: nat)
    requires Inv(plan, s) && b < |s.boards| && Written(s.boards[b].pc)
    ensures !s.boards[plan.master].pc.Gathering?
  {
  }

  lemma SendSetStep(plan: Plan, s: State, b: nat)
    requires Inv(plan, s) && Enabled(plan, s, SendSet(b))
    ensures Inv(plan, Next(plan, s, SendSet(b)))
  {
    hide Plan.Valid, SlaveOk, For, Flooding, Registers, ReplyOk, Barrier;
    var r := Next(plan, s, SendSet(b));
    FloodAfterBarrier(plan, s, b);
    forall c | 0 <= c < |s.boards| && c != plan.master ensures SlaveOk(plan, r, c) {
      SameSlave(plan, s, r, c);
    }
    SendSetRegisters(plan, s, b);
    SendSetFlood(plan, s, b);
    SendSetBarrier(plan, s, b);
  }

  lemma SendSetBarrier(plan: Plan, s: State, b: nat)
    requires Inv(plan, s) && Enabled(plan, s, SendSet(b))
    ensures Barrier(plan, Next(plan, s, SendSet(b)))
  {
    hide Plan.Valid, SlaveOk, For, Flooding, Registers, Delivering, ReplyOk;
    FloodAfterBarrier(plan, s, b);
  }

  lemma SendSetRegisters(plan: Plan, s: State, b: nat)
    requires Inv(plan, s) && Enabled(plan, s, SendSet(b))
    ensures Registers(plan, Next(plan, s, SendSet(b)))
  {
    hide Plan.Valid, SlaveOk, For, Flooding, Delivering, ReplyOk;
    FloodAfterBarrier(plan, s, b);
    SameRegisters(plan, s, Next(plan, s, SendSet(b)));
  }

  lemma SendSetFlood(plan: Plan, s: State, b: nat)
    requires plan.net.Valid() && Shape(plan, s) && Flooding(plan, s) && Enabled(plan, s, SendSet(b))
    ensures Flooding(plan, Next(plan, s, SendSet(b)))
  {
    hide CountOk, LinkOk;
    var r := Next(plan, s, SendSet(b));
    forall p | p in plan.net.wire ensures LinkOk(plan, r, p) {
      assert LinkOk(plan, s, p);
      SendSetLink(plan, s, b, p);
    }
    forall c | 0 <= c < |r.boards| ensures CountOk(plan, r, c) {
      assert CountOk(plan, s, c);
      SendSetCount(plan, s, b, c);
    }
  }

  lemma SendSetLink(plan: Plan, s: State, b: nat, p: Port)
    requires plan.net.Valid() && Shape(plan, s) && Enabled(plan, s, SendSet(b)) && p in plan.net.wire
    requires LinkOk(plan, s, p)
    ensures LinkOk(plan, Next(plan, s, SendSet(b)), p)
  {
    var r := Next(plan, s, SendSet(b));
    var q := plan.net.wire[p];
    if q == Port(b, s.boards[b].pc.i) {
      assert plan.net.wire[q] == p;
    } else {
      assert Sent(r, q) == Sent(s, q);
    }
  }

  lemma SendSetCount(plan: Plan, s: State, b: nat, c: nat)
    requires plan.net.Valid() && Shape(plan, s) && Enabled(plan, s, SendSet(b)) && c < |s.boards|
    requires CountOk(plan, s, c) && s.taken <= plan.net.wire.Keys
    ensures CountOk(plan, Next(plan, s, SendSet(b)), c)
  {
    hide Net.Valid, PortsOf, PortsBelow;
    var r := Next(plan, s, SendSet(b));
    assert TakenAt(r, c) == TakenAt(s, c);
    hide TakenAt;
    if c == b {
      MorePorts(plan.net, b, s.boards[b].pc.i);
      TakenBound(plan, s, b);
    }
  }

  lemma MorePorts(net: Net, b: nat, i: nat)
    requires net.Valid()
    ensures i >= net.ifaces ==> PortsBelow(net, b, i) == PortsOf(net, b)
    ensures |PortsBelow(net, b, i + 1)| == |PortsBelow(net, b, i)| + if Port(b, i) in net.wire then 1 else 0
  {
    if i >= net.ifaces {
      assert PortsBelow(net, b, i) == PortsOf(net, b);
    }
    assert PortsBelow(net, b, i + 1) == PortsBelow(net, b, i) + if Port(b, i) in net.wire then {Port(b, i)} else {};
  }

  lemma TakenBound(plan: Plan, s: State, b: nat)
    requires s.taken <= plan.net.wire.Keys
    ensures |TakenAt(s, b)| <= |PortsOf(plan.net, b)|
    ensures |TakenAt(s, b)| == |PortsOf(plan.net, b)| ==> TakenAt(s, b) == PortsOf(plan.net, b)
  {
    assert TakenAt(s, b) <= PortsOf(plan.net, b);
    SubsetSize(TakenAt(s, b), PortsOf(plan.net, b));
    assert |TakenAt(s, b)| == |PortsOf(plan.net, b)| ==> TakenAt(s, b) == PortsOf(plan.net, b);
  }

  lemma TakeSetStep(plan: Plan, s: State, p: Port)
    requires Inv(plan, s) && Enabled(plan, s, TakeSet(p))
    ensures Inv(plan, Next(plan, s, TakeSet(p)))
  {
    hide Plan.Valid, SlaveOk, For, Flooding, RegsOk, WithLoopback, Final;
    var r := Next(plan, s, TakeSet(p));
    assert !s.boards[plan.master].pc.Gathering?;
    forall c | 0 <= c < |s.boards| && c != plan.master ensures SlaveOk(plan, r, c) {
      SameSlave(plan, s, r, c);
    }
    forall b | 0 <= b < |r.boards| ensures RegsOk(plan, r, b) {
      TakeSetRegs(plan, s, p, b);
    }
    TakeSetFlood(plan, s, p);
    assert Barrier(plan, r);
  }

  lemma TakeSetRegs(plan: Plan, s: State, p: Port, b: nat)
    requires Inv(plan, s) && Enabled(plan, s, TakeSet(p)) && b < |s.boards|
    ensures RegsOk(plan, Next(plan, s, TakeSet(p)), b)
  {
    hide For, Flooding, WithLoopback, Final;
    var r := Next(plan, s, TakeSet(p));
    assert RegsOk(plan, s, b);
    if b == p.board && s.boards[b].pc.WaitSet? {
      assert SlaveOk(plan, s, b);
      WriteRegs(plan, s, r, b);
    }
  }

  lemma TakeSetFlood(plan: Plan, s: State, p: Port)
    requires plan.net.Valid() && Shape(plan, s) && Flooding(plan, s) && Enabled(plan, s, TakeSet(p))
    requires s.boards[p.board].pc.WaitSet? ==> p.board != plan.master
    ensures Flooding(plan, Next(plan, s, TakeSet(p)))
  {
    hide CountOk, LinkOk;
    var r := Next(plan, s, TakeSet(p));
    forall q | q in plan.net.wire ensures LinkOk(plan, r, q) {
      assert LinkOk(plan, s, q);
      TakeSetLink(plan, s, p, q);
    }
    assert LinkOk(plan, s, p);
    forall c | 0 <= c < |r.boards| ensures CountOk(plan, r, c) {
      assert CountOk(plan, s, c);
      TakeSetCount(plan, s, p, c);
    }
  }

  lemma TakeSetLink(plan: Plan, s: State, p: Port, q: Port)
    requires plan.net.Valid() && Shape(plan, s) && Enabled(plan, s, TakeSet(p)) && q in plan.net.wire
             && LinkOk(plan, s, q)
    ensures LinkOk(plan, Next(plan, s, TakeSet(p)), q)
  {
    var r := Next(plan, s, TakeSet(p));
    assert Sent(r, plan.net.wire[q]) == Sent(s, plan.net.wire[q]);
  }

  lemma TakeSetCount(plan: Plan, s: State, p: Port, c: nat)
    requires plan.net.Valid() && Shape(plan, s) && Enabled(plan, s, TakeSet(p)) && c < |s.boards|
    requires s.boards[p.board].pc.WaitSet? ==> p.board != plan.master
    requires CountOk(plan, s, c) && LinkOk(plan, s, p)
    ensures CountOk(plan, Next(plan, s, TakeSet(p)), c)
  {
    var r := Next(plan, s, TakeSet(p));
    if c == p.board {
      assert TakenAt(r, c) == TakenAt(s, c) + {p};
      assert PortsBelow(plan.net, c, 0) == {};
    } else {
      assert TakenAt(r, c) == TakenAt(s, c);
    }
  }

  lemma Step(plan: Plan, s: State, a: Action)
    requires Inv(plan, s) && Enabled(plan, s, a)
    ensures Inv(plan, Next(plan, s, a))
  {
    hide Plan.Valid, Delivering, Barrier, Flooding, Registers, Next;
    match a
    case SendRow => SendRowStep(plan, s);
    case TakeRow(b) => TakeRowStep(plan, s, b);
    case TakeReply(k) => TakeReplyStep(plan, s, k);
    case StartFlood => StartFloodStep(plan, s);
    case SendSet(b) => SendSetStep(plan, s, b);
    case TakeSet(p) => TakeSetStep(plan, s, p);
  }
}
