/** The last two stages of bring-up: the master delivers the routing tables, waits for every slave's
    reply, and starts the flood that makes each board write its table. */
module Install {
  import opened Networks
  import opened Delivery

  /** ids[b] is the id of board b and rows[b] its row in the master's matrix; rows have `size`
      entries, and the ids of all boards are below `last`. */
  datatype Plan = Plan(net: Net, master: nat, ids: seq<nat>, rows: seq<seq<bv8>>, last: nat, size: nat, loopback: bv8) {
    ghost predicate Valid() {
      && net.Valid() && net.Connected(master) && 0 < last <= size
      && |ids| == net.boards == |rows|
      && (forall b :: 0 <= b < |ids| ==> ids[b] < last)
      && (forall b, c :: 0 <= b < c < |ids| ==> ids[b] != ids[c])
      && (forall b :: 0 <= b < |rows| ==> |rows[b]| == size && forall j :: last <= j < size ==> rows[b][j] == 0)
    }
  }

  datatype Pc =
    | Gathering(received: set<nat>)      // master: sends rows, then waits for replies
    | Receiving(max: nat)                // slave: reads rows
    | WaitSet(maxNode: nat)              // slave: has replied, waits for the first SET_ROUTING
    | Flood(i: nat, sent: nat)           // has written its table, sends SET_ROUTING from interface i on
    | Drain(left: nat)                   // waits for that many more SET_ROUTING
    | Done

  /** `table` is the local table, `regs` the routing registers and `writes` how often they were set. */
  datatype Board = Board(pc: Pc, table: seq<bv8>, regs: seq<bv8>, writes: nat)

  /** `out` are the master's row messages not yet sent, `mail` those on their way to each board,
      `replies` the replies on their way to the master, and `chan` the number of SET_ROUTING on
      their way to each port. `taken` records the ports whose message has been consumed. */
  datatype State = State(boards: seq<Board>, out: seq<(nat, RowMsg)>, mail: seq<seq<RowMsg>>,
                         replies: multiset<nat>, chan: map<Port, nat>, taken: set<Port>)

  datatype Action = SendRow | TakeRow(b: nat) | TakeReply(k: nat) | StartFlood | SendSet(b: nat) | TakeSet(p: Port)

  // ----- the master's messages -----

  function Addressed(b: nat, ms: seq<RowMsg>): seq<(nat, RowMsg)> {
    seq(|ms|, i requires 0 <= i < |ms| => (b, ms[i]))
  }

  /** The rows of the slaves from board b on. */
  function AllRows(plan: Plan, b: nat): seq<(nat, RowMsg)>
    requires |plan.rows| == plan.net.boards && b <= plan.net.boards
    requires forall c :: 0 <= c < |plan.rows| ==> plan.last <= |plan.rows[c]|
    decreases plan.net.boards - b
  {
    if b == plan.net.boards then []
    else (if b == plan.master then [] else Addressed(b, Entries(plan.rows[b], 0, plan.last))) + AllRows(plan, b + 1)
  }

  function AllEnds(plan: Plan, b: nat): seq<(nat, RowMsg)>
    requires b <= plan.net.boards
    decreases plan.net.boards - b
  {
    if b == plan.net.boards then []
    else (if b == plan.master then [] else [(b, EndInfo)]) + AllEnds(plan, b + 1)
  }

  /** What is addressed to b. */
  function For(b: nat, out: seq<(nat, RowMsg)>): seq<RowMsg>
    decreases |out|
  {
    if out == [] then []
    else (if out[0].0 == b then [out[0].1] else []) + For(b, out[1..])
  }

  // ----- the steps -----

  function WithLoopback(plan: Plan, b: nat, table: seq<bv8>): seq<bv8>
    requires b < |plan.ids|
  {
    if plan.ids[b] < |table| then table[plan.ids[b] := plan.loopback] else table
  }

  predicate Shape(plan: Plan, s: State) {
    && |s.boards| == plan.net.boards == |s.mail| == |plan.ids| && plan.master < |s.boards|
    && s.chan.Keys == plan.net.wire.Keys
  }

  predicate Enabled(plan: Plan, s: State, a: Action)
    requires Shape(plan, s)
  {
    match a
    case SendRow => s.out != [] && s.boards[plan.master].pc.Gathering?
    case TakeRow(b) => b < |s.boards| && s.boards[b].pc.Receiving? && s.mail[b] != []
    case TakeReply(k) =>
      && s.boards[plan.master].pc.Gathering? && s.out == [] && k in s.replies
      && |s.boards[plan.master].pc.received| != |s.boards| - 1
    case StartFlood =>
      s.boards[plan.master].pc.Gathering? && s.out == [] && |s.boards[plan.master].pc.received| == |s.boards| - 1
    case SendSet(b) => b < |s.boards| && s.boards[b].pc.Flood?
    case TakeSet(p) =>
      && p in s.chan && s.chan[p] > 0 && p.board < |s.boards|
      && (s.boards[p.board].pc.WaitSet? || (s.boards[p.board].pc.Drain? && s.boards[p.board].pc.left > 0))
  }

  /** The slave with that id reads a message; at the end its own id counts as one it has read. */
  function ReadOne(id: nat, bd: Board, m: RowMsg): Board
    requires bd.pc.Receiving?
  {
    if m.EndInfo? then bd.(pc := WaitSet(Greater(id, bd.pc.max)))
    else if m.node < |bd.table| then
      bd.(pc := Receiving(if bd.pc.max < m.node then m.node else bd.pc.max), table := bd.table[m.node := m.mask])
    else bd
  }

  /** The registers get the local table with the loopback entry; the flood starts at interface 0. */
  function Write(plan: Plan, b: nat, bd: Board): Board
    requires b < |plan.ids|
  {
    var t := WithLoopback(plan, b, bd.table);
    Board(Flood(0, 0), t, t, bd.writes + 1)
  }

  function Drained(left: nat): Pc {
    if left == 0 then Done else Drain(left)
  }

  function Next(plan: Plan, s: State, a: Action): (r: State)
    requires Shape(plan, s) && plan.net.Valid() && Enabled(plan, s, a)
    ensures Shape(plan, r)
  {
    match a
    case SendRow =>
      var (b, m) := s.out[0];
      s.(out := s.out[1..], mail := if b < |s.mail| then s.mail[b := s.mail[b] + [m]] else s.mail)
    case TakeRow(b) =>
      var m := s.mail[b][0];
      s.(boards := s.boards[b := ReadOne(plan.ids[b], s.boards[b], m)], mail := s.mail[b := s.mail[b][1..]],
         replies := if m.EndInfo? then s.replies + multiset{plan.ids[b]} else s.replies)
    case TakeReply(k) =>
      var m := s.boards[plan.master];
      s.(boards := s.boards[plan.master := m.(pc := Gathering(m.pc.received + {k}))],
         replies := s.replies - multiset{k})
    case StartFlood =>
      s.(boards := s.boards[plan.master := Write(plan, plan.master, s.boards[plan.master])])
    case SendSet(b) =>
      var pc, p := s.boards[b].pc, Port(b, s.boards[b].pc.i);
      if p.iface >= plan.net.ifaces then
        var left := if b == plan.master || pc.sent == 0 then pc.sent else pc.sent - 1;
        s.(boards := s.boards[b := s.boards[b].(pc := Drained(left))])
      else if p !in plan.net.wire then
        s.(boards := s.boards[b := s.boards[b].(pc := Flood(pc.i + 1, pc.sent))])
      else
        s.(boards := s.boards[b := s.boards[b].(pc := Flood(pc.i + 1, pc.sent + 1))],
           chan := s.chan[plan.net.wire[p] := s.chan[plan.net.wire[p]] + 1])
    case TakeSet(p) =>
      var bd := s.boards[p.board];
      var next := if bd.pc.WaitSet? then Write(plan, p.board, bd) else bd.(pc := Drained(bd.pc.left - 1));
      s.(boards := s.boards[p.board := next],
         chan := s.chan[p := s.chan[p] - 1], taken := s.taken + {p})
  }

  /** The master is about to deliver; every slave has cleared its table. */
  predicate Init(plan: Plan, s: State)
    requires |plan.rows| == plan.net.boards && forall c :: 0 <= c < |plan.rows| ==> plan.last <= |plan.rows[c]|
  {
    && Shape(plan, s) && |plan.rows| == |s.boards|
    && s.out == AllRows(plan, 0) + AllEnds(plan, 0)
    && (forall b :: 0 <= b < |s.boards| ==> s.mail[b] == [] && s.boards[b].writes == 0)
    && s.boards[plan.master].pc == Gathering({}) && s.boards[plan.master].table == plan.rows[plan.master]
    && (forall b :: 0 <= b < |s.boards| && b != plan.master ==>
          s.boards[b].pc == Receiving(0) && s.boards[b].table == seq(plan.size, _ => 0))
    && s.replies == multiset{} && (forall p :: p in s.chan ==> s.chan[p] == 0) && s.taken == {}
  }

  predicate AllDone(plan: Plan, s: State)
    requires Shape(plan, s)
  {
    && (forall b :: 0 <= b < |s.boards| ==> s.boards[b].pc.Done?)
    && s.out == [] && (forall b :: 0 <= b < |s.mail| ==> s.mail[b] == []) && s.replies == multiset{}
    && (forall p :: p in s.chan ==> s.chan[p] == 0)
  }
}
