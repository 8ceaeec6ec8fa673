/** What delivery and flood guarantee, over every run on every connected network. */
module InstallTheorems {
  import opened Networks
  import opened Delivery
  import opened Install
  import opened InstallInv
  import opened InstallSteps

  ghost predicate Runs(plan: Plan, s: State, acts: seq<Action>)
    requires plan.net.Valid() && Shape(plan, s)
    decreases |acts|
  {
    acts == [] || (Enabled(plan, s, acts[0]) && Runs(plan, Next(plan, s, acts[0]), acts[1..]))
  }

  ghost function After(plan: Plan, s: State, acts: seq<Action>): (r: State)
    requires plan.net.Valid() && Shape(plan, s) && Runs(plan, s, acts)
    ensures Shape(plan, r)
    decreases |acts|
  {
    if acts == [] then s else After(plan, Next(plan, s, acts[0]), acts[1..])
  }

  ghost predicate Reachable(plan: Plan, s: State)
    requires plan.Valid()
  {
    exists s0, acts :: Init(plan, s0) && Runs(plan, s0, acts) && s == After(plan, s0, acts)
  }

  lemma {:induction false} RunInv(plan: Plan, s: State, acts: seq<Action>)
    requires plan.net.Valid() && Shape(plan, s) && Inv(plan, s) && Runs(plan, s, acts)
    ensures Inv(plan, After(plan, s, acts))
    decreases |acts|
  {
    hide Inv;
    if acts != [] {
      Step(plan, s, acts[0]);
      RunInv(plan, Next(plan, s, acts[0]), acts[1..]);
    }
  }

  lemma ReachableInv(plan: Plan, s: State)
    requires plan.Valid() && Reachable(plan, s)
    ensures Inv(plan, s)
  {
    hide Inv;
    var s0, acts :| Init(plan, s0) && Runs(plan, s0, acts) && s == After(plan, s0, acts);
    InitInv(plan, s0);
    RunInv(plan, s0, acts);
  }

  // ----- safety -----

  lemma FinalIsRow(plan: Plan, b: nat)
    requires plan.Valid() && b < plan.net.boards
    ensures Final(plan, b).0 == plan.rows[b]
    ensures Greater(plan.ids[b], Final(plan, b).1) == plan.last - 1
            <==> plan.ids[b] == plan.last - 1 || plan.rows[b][plan.last - 1] != 0
  {
    RoundTrip(plan.rows[b], plan.last, plan.ids[b]);
  }

  /** A slave that has read its rows and waits holds its own row, and knows the last id of the network
      exactly when it is that node or has a route to it. */
  ghost predicate Ready(plan: Plan, s: State, b: nat)
    requires plan.Valid() && b < |s.boards| && b < plan.net.boards && s.boards[b].pc.WaitSet?
  {
    && s.boards[b].table == plan.rows[b]
    && (s.boards[b].pc.maxNode == plan.last - 1 <==> plan.ids[b] == plan.last - 1 || plan.rows[b][plan.last - 1] != 0)
  }

  /** Every slave that has replied is ready. */
  lemma DeliveredExact(plan: Plan, s: State, b: nat)
    requires plan.Valid() && Reachable(plan, s) && b < |s.boards| && b != plan.master && s.boards[b].pc.WaitSet?
    ensures b < plan.net.boards && Ready(plan, s, b)
  {
    hide Flooding, Plan.Valid, For, Barrier, Registers;
    ReachableInv(plan, s);
    assert SlaveOk(plan, s, b);
    FinalIsRow(plan, b);
  }

  /** While any SET_ROUTING is under way or any board has written its registers, every slave has its
      complete row, no row message and no reply is under way, and each reply was counted. */
  lemma BarrierHolds(plan: Plan, s: State)
    requires plan.Valid() && Reachable(plan, s)
    requires (exists p :: p in s.chan && s.chan[p] > 0) || (exists b :: 0 <= b < |s.boards| && s.boards[b].writes > 0)
    ensures s.out == [] && s.replies == multiset{} && forall b :: 0 <= b < |s.mail| ==> s.mail[b] == []
    ensures |s.boards| == plan.net.boards
    ensures forall b :: 0 <= b < |s.boards| && b != plan.master ==>
              !s.boards[b].pc.Receiving? && (s.boards[b].pc.WaitSet? ==> Ready(plan, s, b))
  {
    hide Flooding, Plan.Valid, For, Ready;
    ReachableInv(plan, s);
    if b :| 0 <= b < |s.boards| && s.boards[b].writes > 0 {
      assert RegsOk(plan, s, b);
    }
    assert !s.boards[plan.master].pc.Gathering?;
    forall b | 0 <= b < |s.boards| ensures s.mail[b] == [] {
      if b != plan.master {
        assert SlaveOk(plan, s, b);
      }
    }
    forall b | 0 <= b < |s.boards| && b != plan.master && s.boards[b].pc.WaitSet? ensures Ready(plan, s, b) {
      DeliveredExact(plan, s, b);
    }
  }

  /** A board writes its registers at most once, with its row and the loopback entry; over each cable,
      in each direction, at most one SET_ROUTING is ever sent. */
  lemma AtMostOnce(plan: Plan, s: State)
    requires plan.Valid() && Reachable(plan, s)
    ensures forall b :: 0 <= b < |s.boards| ==>
              s.boards[b].writes <= 1
              && (s.boards[b].writes == 1 ==> s.boards[b].regs == WithLoopback(plan, b, plan.rows[b]))
    ensures forall p :: p in plan.net.wire ==> s.chan[p] + (if p in s.taken then 1 else 0) <= 1
  {
    hide Flooding, Plan.Valid, Delivering, Barrier, LinkOk, CountOk;
    ReachableInv(plan, s);
    forall b | 0 <= b < |s.boards|
      ensures s.boards[b].writes <= 1
              && (s.boards[b].writes == 1 ==> s.boards[b].regs == WithLoopback(plan, b, plan.rows[b]))
    {
      FinalIsRow(plan, b);
      assert RegsOk(plan, s, b);
    }
    forall p | p in plan.net.wire ensures s.chan[p] + (if p in s.taken then 1 else 0) <= 1 {
      LinkOnce(plan, s, p);
    }
  }

  lemma LinkOnce(plan: Plan, s: State, p: Port)
    requires plan.net.Valid() && Shape(plan, s) && Flooding(plan, s) && p in plan.net.wire
    ensures s.chan[p] + (if p in s.taken then 1 else 0) <= 1
  {
    assert LinkOk(plan, s, p);
  }

  /** When all boards are done each has written its registers exactly once, every cable end has
      received exactly one SET_ROUTING, and no message of any kind is left. */
  lemma AllInstalled(plan: Plan, s: State)
    requires plan.Valid() && Reachable(plan, s) && forall b :: 0 <= b < |s.boards| ==> s.boards[b].pc.Done?
    ensures AllDone(plan, s) && s.taken == plan.net.wire.Keys
    ensures forall b :: 0 <= b < |s.boards| ==>
              s.boards[b].writes == 1 && s.boards[b].regs == WithLoopback(plan, b, plan.rows[b])
  {
    hide Plan.Valid, Flooding, For, LinkOk, CountOk, RegsOk, Goal;
    ReachableInv(plan, s);
    AllTaken(plan, s);
    forall b | 0 <= b < |s.boards|
      ensures s.mail[b] == [] && s.boards[b].writes == 1 && s.boards[b].regs == WithLoopback(plan, b, plan.rows[b])
    {
      DoneBoard(plan, s, b);
    }
  }

  lemma DoneBoard(plan: Plan, s: State, b: nat)
    requires Inv(plan, s) && b < |s.boards| && s.boards[b].pc.Done?
    ensures s.mail[b] == [] && s.boards[b].writes == 1 && s.boards[b].regs == WithLoopback(plan, b, plan.rows[b])
  {
    hide Flooding, Barrier, For, Final;
    assert RegsOk(plan, s, b);
    FinalIsRow(plan, b);
    if b != plan.master {
      assert SlaveOk(plan, s, b);
    }
  }

  lemma AllTaken(plan: Plan, s: State)
    requires plan.net.Valid() && Shape(plan, s) && Flooding(plan, s)
    requires forall b :: 0 <= b < |s.boards| ==> s.boards[b].pc.Done?
    ensures s.taken == plan.net.wire.Keys && forall p :: p in s.chan ==> s.chan[p] == 0
  {
    forall p | p in plan.net.wire ensures p in s.taken && s.chan[p] == 0 {
      assert LinkOk(plan, s, p) && CountOk(plan, s, p.board);
      TakenBound(plan, s, p.board);
      assert p in PortsOf(plan.net, p.board);
    }
  }

  // ----- progress -----

  lemma GatherEnabled(plan: Plan, s: State) returns (a: Action)
    requires Inv(plan, s) && s.boards[plan.master].pc.Gathering?
    ensures Enabled(plan, s, a)
  {
    hide Flooding, Registers, Final;
    var got := s.boards[plan.master].pc.received;
    if s.out != [] {
      a := SendRow;
    } else if b :| 0 <= b < |s.boards| && s.boards[b].pc.Receiving? {
      assert SlaveOk(plan, s, b);
      a := TakeRow(b);
    } else if |got| == |s.boards| - 1 {
      a := StartFlood;
    } else if b :| 0 <= b < |s.boards| && b != plan.master && plan.ids[b] !in got {
      assert ReplyOk(plan, s, b, got);
      a := TakeReply(plan.ids[b]);
    } else {
      assert got == SlaveIds(plan, |plan.ids|) by {
        forall k | k in got ensures k in SlaveIds(plan, |plan.ids|) {
          assert SlaveId(plan, k);
        }
      }
      SlaveIdsSize(plan, |plan.ids|);
      a := StartFlood;
    }
  }

  /** Once the flood is open, boards without messages or sends left are all done. */
  lemma FloodEnds(plan: Plan, s: State)
    requires Inv(plan, s) && !s.boards[plan.master].pc.Gathering?
    requires forall b :: 0 <= b < |s.boards| ==> !s.boards[b].pc.Flood?
    requires forall p :: p in s.chan ==> s.chan[p] == 0
    ensures forall b :: 0 <= b < |s.boards| ==> s.boards[b].pc.Done?
  {
    hide Registers, For, Final;
    var reached := set b: nat | b < |s.boards| && Written(s.boards[b].pc);
    forall p | p in plan.net.wire && p.board in reached ensures plan.net.wire[p].board in reached {
      FloodSpreads(plan, s, p);
    }
    assert plan.net.Closed(reached);
    assert plan.master in reached by {
      assert !s.boards[plan.master].pc.Receiving?;
    }
    assert forall b :: 0 <= b < plan.net.boards ==> b in reached;
    forall b | 0 <= b < |s.boards| ensures s.boards[b].pc.Done? {
      assert b in reached;
      forall p | p in PortsOf(plan.net, b) ensures p in s.taken {
        assert LinkOk(plan, s, p);
        assert plan.net.wire[p].board in reached;
      }
      NoneLeft(plan, s, b);
    }
  }

  lemma NoneLeft(plan: Plan, s: State, b: nat)
    requires plan.net.Valid() && Shape(plan, s) && Flooding(plan, s) && b < |s.boards|
    requires forall p :: p in PortsOf(plan.net, b) ==> p in s.taken
    ensures !s.boards[b].pc.Drain?
  {
    assert CountOk(plan, s, b);
    assert TakenAt(s, b) == PortsOf(plan.net, b);
  }

  lemma FloodSpreads(plan: Plan, s: State, p: Port)
    requires Inv(plan, s) && p in plan.net.wire && Written(s.boards[p.board].pc) && !s.boards[p.board].pc.Flood?
    requires !s.boards[plan.master].pc.Gathering? && forall q :: q in s.chan ==> s.chan[q] == 0
    ensures Written(s.boards[plan.net.wire[p].board].pc)
  {
    hide Registers, Delivering;
    var q := plan.net.wire[p];
    assert LinkOk(plan, s, q) && CountOk(plan, s, q.board);
    assert q in TakenAt(s, q.board);
  }

  lemma FloodEnabled(plan: Plan, s: State) returns (a: Action)
    requires Inv(plan, s) && !s.boards[plan.master].pc.Gathering?
    requires exists b :: 0 <= b < |s.boards| && !s.boards[b].pc.Done?
    ensures Enabled(plan, s, a)
  {
    hide Registers, For, Final;
    if b :| 0 <= b < |s.boards| && s.boards[b].pc.Flood? {
      a := SendSet(b);
    } else if p :| p in s.chan && s.chan[p] > 0 {
      a := TakeSet(p);
      assert LinkOk(plan, s, p) && CountOk(plan, s, p.board);
      TakenBound(plan, s, p.board);
      assert p in PortsOf(plan.net, p.board) && p !in TakenAt(s, p.board);
      assert p.board != plan.master ==> SlaveOk(plan, s, p.board);
    } else {
      FloodEnds(plan, s);
      a := StartFlood;
    }
  }

  /** A step is possible until every board is done, and then none is. */
  lemma NeverBlocks(plan: Plan, s: State)
    requires plan.Valid() && Reachable(plan, s)
    ensures AllDone(plan, s) <==> !exists a :: Enabled(plan, s, a)
  {
    hide Plan.Valid, Delivering, Barrier, Flooding, Registers;
    ReachableInv(plan, s);
    if s.boards[plan.master].pc.Gathering? {
      var a := GatherEnabled(plan, s);
    } else if b :| 0 <= b < |s.boards| && !s.boards[b].pc.Done? {
      var a := FloodEnabled(plan, s);
    } else {
      AllInstalled(plan, s);
    }
  }

  // ----- termination -----

  function MailLeft(mail: seq<seq<RowMsg>>): nat {
    if mail == [] then 0 else MailLeft(mail[..|mail| - 1]) + |mail[|mail| - 1]|
  }

  ghost function BoardWork(plan: Plan, b: nat, pc: Pc): int {
    var deg, ifaces := |PortsOf(plan.net, b)|, plan.net.ifaces;
    match pc
    case Flood(i, _) => ifaces - i + 2 + deg
    case Drain(left) => left
    case Done => 0
    case _ => ifaces + 3 + deg
  }

  ghost function FloodWork(plan: Plan, boards: seq<Board>): int {
    if boards == [] then 0
    else FloodWork(plan, boards[..|boards| - 1]) + BoardWork(plan, |boards| - 1, boards[|boards| - 1].pc)
  }

  lemma {:induction false} MailUpdate(mail: seq<seq<RowMsg>>, b: nat, ms: seq<RowMsg>)
    requires b < |mail|
    ensures MailLeft(mail[b := ms]) == MailLeft(mail) - |mail[b]| + |ms|
  {
    var k := |mail| - 1;
    if b == k {
      assert mail[b := ms][..k] == mail[..k];
    } else {
      MailUpdate(mail[..k], b, ms);
      assert mail[b := ms][..k] == mail[..k][b := ms];
    }
  }

  lemma {:induction false} FloodUpdate(plan: Plan, boards: seq<Board>, b: nat, bd: Board)
    requires b < |boards|
    ensures FloodWork(plan, boards[b := bd]) ==
            FloodWork(plan, boards) - BoardWork(plan, b, boards[b].pc) + BoardWork(plan, b, bd.pc)
  {
    var k := |boards| - 1;
    if b == k {
      assert boards[b := bd][..k] == boards[..k];
    } else {
      FloodUpdate(plan, boards[..k], b, bd);
      assert boards[b := bd][..k] == boards[..k][b := bd];
    }
  }

  lemma {:induction false} FloodBound(plan: Plan, boards: seq<Board>)
    requires forall b :: 0 <= b < |boards| && boards[b].pc.Flood? ==> boards[b].pc.i <= plan.net.ifaces
    ensures FloodWork(plan, boards) >= 0
  {
    if boards != [] {
      FloodBound(plan, boards[..|boards| - 1]);
    }
  }

  /** Rows to send, rows to read, replies to read, and what the boards still have to flood. */
  ghost predicate Smaller(plan: Plan, r: State, s: State) {
    || |r.out| < |s.out|
    || (r.out == s.out && MailLeft(r.mail) < MailLeft(s.mail))
    || (r.out == s.out && r.mail == s.mail && |r.replies| < |s.replies|)
    || (r.out == s.out && r.mail == s.mail && r.replies == s.replies
       && FloodWork(plan, r.boards) < FloodWork(plan, s.boards))
  }

  lemma DeliverySmaller(plan: Plan, s: State, a: Action)
    requires Inv(plan, s) && Enabled(plan, s, a) && (a.SendRow? || a.TakeRow? || a.TakeReply?)
    ensures Smaller(plan, Next(plan, s, a), s)
  {
    hide Plan.Valid, Delivering, Barrier, Registers, Flooding, FloodWork, MailLeft;
    match a
    case SendRow =>
    case TakeRow(b) =>
      MailUpdate(s.mail, b, s.mail[b][1..]);
    case TakeReply(k) =>
      assert |s.replies| == |s.replies - multiset{k}| + 1;
  }

  lemma StartSmaller(plan: Plan, s: State)
    requires Inv(plan, s) && Enabled(plan, s, StartFlood)
    ensures Smaller(plan, Next(plan, s, StartFlood), s)
  {
    hide Plan.Valid, Delivering, Barrier, Registers, Flooding, FloodWork, MailLeft, PortsOf;
    FloodUpdate(plan, s.boards, plan.master, Next(plan, s, StartFlood).boards[plan.master]);
  }

  lemma SendSetSmaller(plan: Plan, s: State, b: nat)
    requires Inv(plan, s) && Enabled(plan, s, SendSet(b))
    ensures Smaller(plan, Next(plan, s, SendSet(b)), s)
  {
    hide Plan.Valid, Delivering, Barrier, Registers, LinkOk, FloodWork, MailLeft, PortsOf, PortsBelow, TakenAt;
    assert CountOk(plan, s, b);
    MorePorts(plan.net, b, s.boards[b].pc.i);
    FloodUpdate(plan, s.boards, b, Next(plan, s, SendSet(b)).boards[b]);
  }

  lemma TakeSetSmaller(plan: Plan, s: State, p: Port)
    requires Inv(plan, s) && Enabled(plan, s, TakeSet(p))
    ensures Smaller(plan, Next(plan, s, TakeSet(p)), s)
  {
    hide Plan.Valid, Delivering, Barrier, Registers, Flooding, FloodWork, MailLeft, PortsOf;
    FloodUpdate(plan, s.boards, p.board, Next(plan, s, TakeSet(p)).boards[p.board]);
  }

  lemma StepSmaller(plan: Plan, s: State, a: Action)
    requires Inv(plan, s) && Enabled(plan, s, a)
    ensures Smaller(plan, Next(plan, s, a), s)
  {
    hide Smaller, Next, Plan.Valid, Delivering, Barrier, Registers, Flooding;
    match a
    case StartFlood => StartSmaller(plan, s);
    case SendSet(b) => SendSetSmaller(plan, s, b);
    case TakeSet(p) => TakeSetSmaller(plan, s, p);
    case _ => DeliverySmaller(plan, s, a);
  }

  ghost predicate Follows(plan: Plan, run: nat -> State, acts: nat -> Action, k: nat)
    requires plan.net.Valid()
  {
    Shape(plan, run(k)) && Enabled(plan, run(k), acts(k)) && run(k + 1) == Next(plan, run(k), acts(k))
  }

  /** No run goes on for ever. */
  lemma EveryRunEnds(plan: Plan, run: nat -> State, acts: nat -> Action)
    requires plan.Valid() && Init(plan, run(0))
    ensures exists k :: !Follows(plan, run, acts, k)
  {
    hide Inv;
    if forall k :: Follows(plan, run, acts, k) {
      InitInv(plan, run(0));
      Descend(plan, run, acts, 0);
    }
  }

  lemma {:induction false} Descend(plan: Plan, run: nat -> State, acts: nat -> Action, k: nat)
    requires plan.net.Valid() && Inv(plan, run(k)) && forall j :: Follows(plan, run, acts, j)
    ensures false
    decreases |run(k).out|, MailLeft(run(k).mail), |run(k).replies|, FloodWork(plan, run(k).boards)
  {
    hide Plan.Valid, Delivering, Barrier, Registers, LinkOk, FloodWork, MailLeft, Next;
    assert Follows(plan, run, acts, k);
    Step(plan, run(k), acts(k));
    StepSmaller(plan, run(k), acts(k));
    forall b | 0 <= b < |run(k).boards| && run(k).boards[b].pc.Flood? ensures run(k).boards[b].pc.i <= plan.net.ifaces {
      assert CountOk(plan, run(k), b);
    }
    FloodBound(plan, run(k).boards);
    Descend(plan, run, acts, k + 1);
  }

  // ----- the end is reached -----

  lemma {:induction false} RunsOn(plan: Plan, s: State, acts: seq<Action>, a: Action)
    requires plan.net.Valid() && Shape(plan, s) && Runs(plan, s, acts) && Enabled(plan, After(plan, s, acts), a)
    ensures Runs(plan, s, acts + [a]) && After(plan, s, acts + [a]) == Next(plan, After(plan, s, acts), a)
    decreases |acts|
  {
    hide Next, Enabled;
    if acts == [] {
      assert ([] + [a])[1..] == [];
    } else {
      RunsOn(plan, Next(plan, s, acts[0]), acts[1..], a);
      assert (acts + [a])[1..] == acts[1..] + [a];
    }
  }

  lemma ReachableNext(plan: Plan, s: State, a: Action)
    requires plan.Valid() && Reachable(plan, s) && Shape(plan, s) && Enabled(plan, s, a)
    ensures Reachable(plan, Next(plan, s, a))
  {
    hide Next, Enabled;
    var s0, acts :| Init(plan, s0) && Runs(plan, s0, acts) && s == After(plan, s0, acts);
    RunsOn(plan, s0, acts, a);
  }

  /** From every reachable state the end can be reached. */
  lemma {:induction false} Finish(plan: Plan, s: State) returns (r: State)
    requires plan.Valid() && Reachable(plan, s) && Inv(plan, s)
    ensures Reachable(plan, r) && Shape(plan, r) && AllDone(plan, r)
    decreases |s.out|, MailLeft(s.mail), |s.replies|, FloodWork(plan, s.boards)
  {
    hide Plan.Valid, Delivering, Barrier, Registers, LinkOk, FloodWork, MailLeft, Next, Reachable, AllDone, Enabled;
    NeverBlocks(plan, s);
    if AllDone(plan, s) {
      r := s;
    } else {
      var a :| Enabled(plan, s, a);
      Step(plan, s, a);
      StepSmaller(plan, s, a);
      ReachableNext(plan, s, a);
      forall b | 0 <= b < |s.boards| && s.boards[b].pc.Flood? ensures s.boards[b].pc.i <= plan.net.ifaces {
        assert CountOk(plan, s, b);
      }
      FloodBound(plan, s.boards);
      r := Finish(plan, Next(plan, s, a));
    }
  }

  /** Delivery and flood end, for every plan. */
  lemma SomeEnd(plan: Plan) returns (r: State)
    requires plan.Valid()
    ensures Reachable(plan, r) && Shape(plan, r) && AllDone(plan, r)
  {
    var n := plan.net.boards;
    var first := Board(Gathering({}), plan.rows[plan.master], [], 0);
    var slave := Board(Receiving(0), seq(plan.size, _ => 0), [], 0);
    var s := State(seq(n, b => if b == plan.master then first else slave), AllRows(plan, 0) + AllEnds(plan, 0),
                   seq(n, _ => []), multiset{}, map p | p in plan.net.wire :: 0, {});
    assert Init(plan, s);
    hide AllDone, Inv;
    assert Runs(plan, s, []) && After(plan, s, []) == s;
    assert Reachable(plan, s);
    InitInv(plan, s);
    hide Reachable;
    r := Finish(plan, s);
  }
}
