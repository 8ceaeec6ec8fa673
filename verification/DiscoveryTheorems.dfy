/** What discovery guarantees, over every run on every connected network. */
module DiscoveryTheorems {
  import opened FiniteSets
  import opened Networks
  import opened DepthFirst
  import opened SearchTree
  import opened Renumbering
  import opened TopologyTables
  import opened Knowledge
  import opened Discovery
  import opened DiscoveryInv
  import opened DiscoverySteps
  import opened DiscoveryRoutes
  import opened DiscoveryTruth
  import opened DiscoveryRuns

  /** The actions can be taken one after the other from s. */
  ghost predicate Runs(cfg: Config, s: State, acts: seq<Action>)
    requires cfg.net.Valid() && Shape(cfg, s)
    decreases |acts|
  {
    acts == [] || (Enabled(cfg, s, acts[0]) && Runs(cfg, Next(cfg, s, acts[0]), acts[1..]))
  }

  ghost function After(cfg: Config, s: State, acts: seq<Action>): (r: State)
    requires cfg.net.Valid() && Shape(cfg, s) && Runs(cfg, s, acts)
    ensures Shape(cfg, r)
    decreases |acts|
  {
    if acts == [] then s else After(cfg, Next(cfg, s, acts[0]), acts[1..])
  }

  /** s can be reached from a start state of the protocol. */
  ghost predicate Reachable(cfg: Config, s: State)
    requires cfg.net.Valid()
  {
    exists s0, acts :: Init(cfg, s0) && Runs(cfg, s0, acts) && s == After(cfg, s0, acts)
  }

  lemma {:induction false} RunGood(cfg: Config, s: State, v: View, acts: seq<Action>) returns (w: View)
    requires cfg.Valid() && Shape(cfg, s) && Good(cfg, s, v) && Runs(cfg, s, acts)
    ensures Good(cfg, After(cfg, s, acts), w)
    decreases |acts|
  {
    hide Good;
    if acts == [] {
      w := v;
    } else {
      var u := Step(cfg, s, v, acts[0]);
      w := RunGood(cfg, Next(cfg, s, acts[0]), u, acts[1..]);
    }
  }

  lemma ReachableGood(cfg: Config, s: State) returns (v: View)
    requires cfg.Valid() && Reachable(cfg, s)
    ensures Good(cfg, s, v)
  {
    hide Good;
    var s0, acts :| Init(cfg, s0) && Runs(cfg, s0, acts) && s == After(cfg, s0, acts);
    InitGood(cfg, s0);
    v := RunGood(cfg, s0, View(Begin(cfg), Scanning), acts);
  }

  // ----- safety -----

  /** Board b is at the head of its loop over the interfaces. */
  predicate Scans(s: State, b: nat) {
    b < |s.nodes| && s.nodes[b].pc.Scan?
  }

  /** Exactly one board scans, and nothing is under way; */
  ghost predicate TokenHeld(cfg: Config, s: State)
    requires Shape(cfg, s)
  {
    Quiet(cfg, s) && exists b :: Scans(s, b) && forall c :: Scans(s, c) ==> c == b
  }

  /** or none does, and all that is under way, at least one message, travels over one cable in one direction. */
  ghost predicate TokenSent(cfg: Config, s: State)
    requires Shape(cfg, s) && cfg.net.Valid()
  {
    (forall c :: !Scans(s, c)) && exists q, msgs :: Only(cfg, s, q, msgs) && msgs != []
  }

  /** There is one token: it is held, or it is on its way, or all boards are done, and of these
      exactly one. */
  lemma OneToken(cfg: Config, s: State)
    requires cfg.Valid() && Reachable(cfg, s)
    ensures TokenHeld(cfg, s) || TokenSent(cfg, s) || AllDone(cfg, s)
    ensures !(TokenHeld(cfg, s) && TokenSent(cfg, s)) && !(TokenHeld(cfg, s) && AllDone(cfg, s))
            && !(TokenSent(cfg, s) && AllDone(cfg, s))
  {
    hide Numbering, Stacked, Tracked, Finished, Passed, Ancestors, Retired, Idlers, Routes, Truth, Tree, Tables,
         Rest, Quiet, Only, TableIs, AllDone;
    var v := ReachableGood(cfg, s);
    forall c | Scans(s, c) ensures c == Top(v.d).board && v.token.Scanning? {
      OnlyTopScans(cfg, s, v, c);
    }
    if v.token.Scanning? {
      assert Scans(s, Top(v.d).board);
    } else if v.token.Halted? {
      HaltedDone(cfg, s, v);
    } else {
      var q, msgs := UnderWay(cfg, s, v);
    }
    if AllDone(cfg, s) {
      DoneQuiet(cfg, s);
    }
  }

  lemma DoneQuiet(cfg: Config, s: State)
    requires cfg.net.Valid() && Shape(cfg, s) && AllDone(cfg, s)
    ensures !TokenHeld(cfg, s) && !TokenSent(cfg, s)
  {
  }

  /** The board at p awaits the message m: no error branch is taken and no message is dropped.
      Answers, and the stream of a child, come over the interface that was scanned last. */
  predicate Awaited(n: Node, p: Port, m: Msg) {
    match n.pc
    case Idle => m.ReqId?
    case WaitSetId => m.SetId?
    case WaitStart => m.Start? && m.dst == n.id
    case WaitRsp(i) => (m.RspId? || m.RspNoId?) && p.iface == i && m.dst == n.id
    case WaitEnd(i, start) => m.ReqId? || ((m.Topology? || m.EndTopology?) && p.iface == i)
    case _ => false
  }

  /** Whatever is at the head of a cable is awaited by the board it leads to; REQ_ID in particular
      reaches an idle board or a board that waits for its child, never a finished one. */
  lemma HeadAwaited(cfg: Config, s: State, p: Port)
    requires cfg.Valid() && Reachable(cfg, s) && p in cfg.net.wire && s.chan[p] != []
    ensures Awaited(s.nodes[p.board], p, s.chan[p][0]) && s.nodes[p.board].out == []
  {
    hide Numbering, Stacked, Tracked, Finished, Passed, Ancestors, Retired, Idlers, Routes, Truth, Tree, Tables,
         Rest, Front, Awaited;
    var v := ReachableGood(cfg, s);
    match v.token
    case Naming => NamedAwaited(cfg, s, v, p);
    case Starting => NamedAwaited(cfg, s, v, p);
    case Returning(_) => StreamAwaited(cfg, s, v, p);
    case _ => AskAwaited(cfg, s, v, p);
  }

  lemma AskAwaited(cfg: Config, s: State, v: View, p: Port)
    requires DiscoveryInv.Inv(cfg, s, v) && p in cfg.net.wire && s.chan[p] != []
    requires v.token.Scanning? || v.token.Halted? || v.token.Asking? || v.token.Answering?
    ensures Awaited(s.nodes[p.board], p, s.chan[p][0]) && s.nodes[p.board].out == []
  {
    hide Numbering, Stacked, Tracked, Finished, Passed, Ancestors, Retired, Idlers, Tables, Only, TableIs;
    var d := v.d;
    var n := s.nodes[Top(d).board];
    match v.token
    case Asking =>
      HeadOf(cfg, s, cfg.net.wire[TopPort(d)], [ReqId(n.id)], p);
      AskedBoard(cfg, s, v);
    case Answering =>
      HeadOf(cfg, s, TopPort(d), [Answer(cfg, d, cfg.net.wire[TopPort(d)], n.id)], p);
    case _ =>
  }

  lemma NamedAwaited(cfg: Config, s: State, v: View, p: Port)
    requires DiscoveryInv.Inv(cfg, s, v) && p in cfg.net.wire && s.chan[p] != []
             && (v.token.Naming? || v.token.Starting?)
    ensures Awaited(s.nodes[p.board], p, s.chan[p][0]) && s.nodes[p.board].out == []
  {
    hide Numbering, Stacked, Tracked, Finished, Passed, Ancestors, Retired, Idlers, Tables, Only, TableIs;
    var d, b := v.d, Top(v.d).board;
    var from, to := Id(cfg, d, d.stack[|d.stack| - 2].board), Id(cfg, d, b);
    var msgs := if v.token.Naming? then [SetId(from, to), Start(from, to)] else [Start(from, to)];
    HeadOf(cfg, s, Port(b, d.up[b]), msgs, p);
  }

  lemma StreamAwaited(cfg: Config, s: State, v: View, p: Port)
    requires DiscoveryInv.Inv(cfg, s, v) && p in cfg.net.wire && s.chan[p] != [] && v.token.Returning?
    ensures Awaited(s.nodes[p.board], p, s.chan[p][0]) && s.nodes[p.board].out == []
  {
    hide Numbering, Stacked, Tracked, Finished, Passed, Ancestors, Retired, Idlers, Tables, Only, TableIs;
    var d, ls := v.d, v.token.ls;
    var below := d.stack[|d.stack| - 2];
    HeadOf(cfg, s, Port(below.board, below.iface), Messages(ls) + [EndTopology(s.nodes[Top(d).board].next)], p);
    ParentWaits(cfg, s, v);
  }

  lemma HeadOf(cfg: Config, s: State, q: Port, msgs: seq<Msg>, p: Port)
    requires cfg.net.Valid() && Shape(cfg, s) && Only(cfg, s, q, msgs) && p in cfg.net.wire && s.chan[p] != []
    ensures p == q && |msgs| > 0 && s.chan[p][0] == msgs[0] && s.nodes[p.board].out == []
  {
    assert msgs[0] == s.chan[q][0];
  }

  lemma ParentWaits(cfg: Config, s: State, v: View)
    requires DiscoveryInv.Inv(cfg, s, v) && |v.d.stack| > 1
    ensures var f := v.d.stack[|v.d.stack| - 2];
            f.board < |s.nodes| && s.nodes[f.board].pc.WaitEnd? && s.nodes[f.board].pc.i == f.iface
  {
    assert Ancestor(cfg, s, v.d, |v.d.stack| - 2);
  }

  predicate Begun(n: Node) {
    n.pc.Scan? || n.pc.WaitRsp? || n.pc.WaitEnd? || n.pc.Done?
  }

  /** In every reachable state some numbering of boards explains all tables: boards that have begun
      hold its ids, all below masterId + boards, and the table of every numbered board is symmetric
      and shows only true cables. */
  lemma TablesTrue(cfg: Config, s: State)
    requires cfg.Valid() && Reachable(cfg, s)
    ensures exists d :: Explains(cfg, s, d)
  {
    hide Numbering, Stacked, Finished, Passed, Tables, Routes, Tree, Rest, Truthful, Linked, Only, TableIs, Front,
         Idlers, Ancestors, Retired, Tracked;
    var v := ReachableGood(cfg, s);
    OrderBound(cfg, v.d);
    forall b | 0 <= b < |s.nodes| && Begun(s.nodes[b]) ensures b in v.d.pos && s.nodes[b].id == Id(cfg, v.d, b) {
      BegunId(cfg, s, v, b);
    }
    assert Explains(cfg, s, v.d);
  }

  lemma BegunId(cfg: Config, s: State, v: View, b: nat)
    requires DiscoveryInv.Inv(cfg, s, v) && b < |s.nodes| && Begun(s.nodes[b])
    ensures b in v.d.pos && s.nodes[b].id == Id(cfg, v.d, b)
  {
    hide Numbering, Stacked, Finished, Passed, Tables, Linked, Only, TableIs;
    var d := v.d;
    if b !in d.last {
      assert b in d.pos;
      assert OnStack(d, b);
      var j :| 0 <= j < |d.stack| && d.stack[j].board == b;
      assert j < |d.stack| - 1 ==> Ancestor(cfg, s, d, j);
    }
  }

  ghost predicate Explains(cfg: Config, s: State, d: Search) {
    && cfg.net.Valid() && Shape(cfg, s) && Numbering(cfg, d) && |d.order| <= cfg.net.boards
    && (forall b :: 0 <= b < |s.nodes| && Begun(s.nodes[b]) ==> b in d.pos && s.nodes[b].id == Id(cfg, d, b))
    && (forall b :: 0 <= b < |s.nodes| && b in d.pos ==> Truthful(cfg, d, s.nodes[b].topo))
  }

  // ----- progress -----

  lemma UnderWay(cfg: Config, s: State, v: View) returns (q: Port, msgs: seq<Msg>)
    requires DiscoveryInv.Inv(cfg, s, v) && !v.token.Scanning? && !v.token.Halted?
    ensures Only(cfg, s, q, msgs) && msgs != []
  {
    hide Numbering, Stacked, Tracked, Finished, Passed, Ancestors, Retired, Idlers, Tables, TableIs, Only;
    q, msgs :| Only(cfg, s, q, msgs) && msgs != [];
  }

  lemma SomeEnabled(cfg: Config, s: State, v: View) returns (a: Action)
    requires cfg.Valid() && Reachable(cfg, s) && Good(cfg, s, v) && !v.token.Halted?
    ensures Enabled(cfg, s, a)
  {
    hide Numbering, Stacked, Tracked, Finished, Passed, Ancestors, Retired, Idlers, Routes, Truth, Tree, Tables,
         Rest, TableIs;
    if v.token.Scanning? {
      a := Local(Top(v.d).board);
    } else {
      var q, msgs := UnderWay(cfg, s, v);
      if s.chan[q] != [] {
        HeadAwaited(cfg, s, q);
        a := Deliver(q);
      } else {
        a := Transmit(cfg.net.wire[q].board);
      }
    }
  }

  /** A board can always take a step until all are done, and then none can. */
  lemma NeverBlocks(cfg: Config, s: State)
    requires cfg.Valid() && Reachable(cfg, s)
    ensures AllDone(cfg, s) <==> !exists a :: Enabled(cfg, s, a)
  {
    hide Numbering, Stacked, Tracked, Finished, Passed, Ancestors, Retired, Idlers, Routes, Truth, Tree, Tables,
         Rest, Front;
    var v := ReachableGood(cfg, s);
    if v.token.Halted? {
      HaltedDone(cfg, s, v);
    } else {
      var a := SomeEnabled(cfg, s, v);
    }
  }

  lemma HaltedDone(cfg: Config, s: State, v: View)
    requires cfg.Valid() && DiscoveryInv.Inv(cfg, s, v) && v.token.Halted?
    ensures AllDone(cfg, s)
    ensures forall b :: 0 <= b < cfg.net.boards <==> b in v.d.pos
    ensures forall b :: 0 <= b < cfg.net.boards && b != cfg.master ==> b in v.d.last
    ensures |v.d.order| == cfg.net.boards
  {
    hide Numbering, Finished, Passed, Tables, Ancestors, Linked, Idlers;
    AllNumbered(cfg, v.d);
    forall b | b in v.d.pos && b != cfg.master ensures b in v.d.last {
      assert b !in v.d.last ==> OnStack(v.d, b);
    }
  }

  /** No run goes on for ever: somewhere the sequence of actions has to stop. */
  lemma EveryRunEnds(cfg: Config, run: nat -> State, acts: nat -> Action)
    requires cfg.Valid() && Init(cfg, run(0))
    ensures exists k :: !Follows(cfg, run, acts, k)
  {
    hide Good;
    if forall k :: Follows(cfg, run, acts, k) {
      InitGood(cfg, run(0));
      Descend(cfg, run, acts, 0, View(Begin(cfg), Scanning));
    }
  }

  ghost predicate Follows(cfg: Config, run: nat -> State, acts: nat -> Action, k: nat)
    requires cfg.net.Valid()
  {
    Shape(cfg, run(k)) && Enabled(cfg, run(k), acts(k)) && run(k + 1) == Next(cfg, run(k), acts(k))
  }

  lemma {:induction false} Descend(cfg: Config, run: nat -> State, acts: nat -> Action, k: nat, v: View)
    requires cfg.Valid() && Good(cfg, run(k), v)
    requires forall j :: Follows(cfg, run, acts, j)
    ensures false
    decreases Work(cfg, v.d), Rank(v.token), Unread(v.token), Unsent(run(k).nodes)
  {
    hide Numbering, Stacked, Tracked, Finished, Passed, Ancestors, Retired, Idlers, Routes, Truth, Tree, Tables,
         Rest, Front, Work, Rank;
    assert Follows(cfg, run, acts, k);
    var w := Step(cfg, run(k), v, acts(k));
    WorkBound(cfg, v.d);
    Descend(cfg, run, acts, k + 1, w);
  }

  lemma {:induction false} RunsOn(cfg: Config, s: State, acts: seq<Action>, a: Action)
    requires cfg.net.Valid() && Shape(cfg, s) && Runs(cfg, s, acts) && Enabled(cfg, After(cfg, s, acts), a)
    ensures Runs(cfg, s, acts + [a]) && After(cfg, s, acts + [a]) == Next(cfg, After(cfg, s, acts), a)
    decreases |acts|
  {
    hide Next, Enabled;
    if acts == [] {
      assert ([] + [a])[1..] == [];
    } else {
      RunsOn(cfg, Next(cfg, s, acts[0]), acts[1..], a);
      assert (acts + [a])[1..] == acts[1..] + [a];
    }
  }

  lemma ReachableNext(cfg: Config, s: State, a: Action)
    requires cfg.net.Valid() && Reachable(cfg, s) && Enabled(cfg, s, a)
    ensures Reachable(cfg, Next(cfg, s, a))
  {
    hide Next, Enabled;
    var s0, acts :| Init(cfg, s0) && Runs(cfg, s0, acts) && s == After(cfg, s0, acts);
    RunsOn(cfg, s0, acts, a);
  }

  /** From every reachable state the end can be reached. */
  lemma {:induction false} Finish(cfg: Config, s: State, v: View) returns (r: State)
    requires cfg.Valid() && Reachable(cfg, s) && Good(cfg, s, v)
    ensures Reachable(cfg, r) && AllDone(cfg, r)
    decreases Work(cfg, v.d), Rank(v.token), Unread(v.token), Unsent(s.nodes)
  {
    hide Numbering, Stacked, Tracked, Finished, Passed, Ancestors, Retired, Idlers, Routes, Truth, Tree, Tables,
         Rest, Front, Work, Rank, Reachable;
    if v.token.Halted? {
      HaltedDone(cfg, s, v);
      r := s;
    } else {
      var a := SomeEnabled(cfg, s, v);
      var w := Step(cfg, s, v, a);
      WorkBound(cfg, v.d);
      ReachableNext(cfg, s, a);
      r := Finish(cfg, Next(cfg, s, a), w);
    }
  }

  /** Discovery ends on every connected network. */
  lemma SomeEnd(cfg: Config) returns (r: State)
    requires cfg.Valid()
    ensures Reachable(cfg, r) && AllDone(cfg, r)
  {
    var idle := Node(Idle, 0, 0, 0, map[], map[], 0, []);
    var first := Node(Scan(0), 0, cfg.masterId, cfg.masterId, map[], map[cfg.masterId := Loopback], 0, []);
    var s := State(seq(cfg.net.boards, b => if b == cfg.master then first else idle), map p | p in cfg.net.wire :: []);
    assert Init(cfg, s);
    hide Good, Reachable, AllDone;
    InitGood(cfg, s);
    ReachableInit(cfg, s);
    r := Finish(cfg, s, View(Begin(cfg), Scanning));
  }

  lemma ReachableInit(cfg: Config, s: State)
    requires cfg.net.Valid() && Init(cfg, s)
    ensures Reachable(cfg, s)
  {
    assert Runs(cfg, s, []) && After(cfg, s, []) == s;
  }

  // ----- the result -----

  lemma DoneHalted(cfg: Config, s: State) returns (v: View)
    requires cfg.Valid() && Reachable(cfg, s) && AllDone(cfg, s)
    ensures Good(cfg, s, v) && v.token.Halted?
  {
    hide Good;
    v := ReachableGood(cfg, s);
    if !v.token.Halted? {
      var a := SomeEnabled(cfg, s, v);
      assert false;
    }
  }

  /** In a halted state every board holds the id of its place in the order. */
  lemma HaltedIds(cfg: Config, s: State, v: View, b: nat)
    requires cfg.Valid() && DiscoveryInv.Inv(cfg, s, v) && v.token.Halted? && b < cfg.net.boards
    ensures b in v.d.pos && s.nodes[b].id == Id(cfg, v.d, b) && (b in v.d.last <==> b != cfg.master)
    ensures b != cfg.master ==> b in v.d.up && s.nodes[b].up == v.d.up[b]
  {
    HaltedDone(cfg, s, v);
    AboveOthers(cfg, v.d);
    hide Finished, Passed, Tables, Idlers, Tracked, Numbering, Linked;
    assert b != cfg.master ==> b in v.d.last;
  }

  lemma Positions(cfg: Config, d: Search, a: nat, b: nat)
    requires Numbering(cfg, d) && a in d.pos && b in d.pos
    ensures d.pos[a] < |d.order| && (d.pos[a] == d.pos[b] ==> a == b)
  {
    assert d.order[d.pos[a]] == a && d.order[d.pos[b]] == b;
  }

  /** When all boards are done they hold distinct ids without gap from the master's on, those of the
      recursive renumbering, and the master counts them. */
  lemma IdsExact(cfg: Config, s: State)
    requires cfg.Valid() && Reachable(cfg, s) && AllDone(cfg, s)
    ensures forall b :: 0 <= b < cfg.net.boards <==> b in Expected(cfg).of
    ensures forall b :: 0 <= b < cfg.net.boards ==> s.nodes[b].id == cfg.masterId + Expected(cfg).of[b]
    ensures forall b :: 0 <= b < cfg.net.boards ==> cfg.masterId <= s.nodes[b].id < cfg.masterId + cfg.net.boards
    ensures forall a, b :: 0 <= a < b < cfg.net.boards ==> s.nodes[a].id != s.nodes[b].id
    ensures s.nodes[cfg.master].id == cfg.masterId && s.nodes[cfg.master].next + 1 == cfg.masterId + cfg.net.boards
  {
    assert |s.nodes| == cfg.net.boards;
    hide Reachable, AllDone, Expected, Net.Connected;
    forall b: nat ensures b < cfg.net.boards <==> b in Expected(cfg).of {
      DoneMember(cfg, s, b);
    }
    forall b | 0 <= b < cfg.net.boards
      ensures s.nodes[b].id == cfg.masterId + Expected(cfg).of[b] < cfg.masterId + cfg.net.boards
    {
      DoneId(cfg, s, b);
    }
    forall a, b | 0 <= a < b < cfg.net.boards ensures s.nodes[a].id != s.nodes[b].id {
      DoneDistinct(cfg, s, a, b);
    }
    DoneMaster(cfg, s);
  }

  lemma DoneMember(cfg: Config, s: State, b: nat)
    requires cfg.Valid() && Reachable(cfg, s) && AllDone(cfg, s)
    ensures b < cfg.net.boards <==> b in Expected(cfg).of
  {
    hide Stacked, Finished, Passed, Tables, Ancestors, Idlers, Routes, Truth, Tree, Rest, Tracked, Visit;
    var v := DoneHalted(cfg, s);
    HaltedDone(cfg, s, v);
    EndVisit(cfg, v.d);
    assert v.d.pos == Expected(cfg).of;
  }

  lemma DoneId(cfg: Config, s: State, b: nat)
    requires cfg.Valid() && Reachable(cfg, s) && AllDone(cfg, s) && b < cfg.net.boards
    ensures b in Expected(cfg).of && s.nodes[b].id == cfg.masterId + Expected(cfg).of[b] < cfg.masterId + cfg.net.boards
  {
    hide Stacked, Finished, Passed, Tables, Ancestors, Idlers, Routes, Truth, Tree, Rest, Tracked, Visit;
    var v := DoneHalted(cfg, s);
    HaltedDone(cfg, s, v);
    EndVisit(cfg, v.d);
    assert v.d.pos == Expected(cfg).of;
    HaltedIds(cfg, s, v, b);
    Positions(cfg, v.d, b, b);
  }

  lemma DoneDistinct(cfg: Config, s: State, a: nat, b: nat)
    requires cfg.Valid() && Reachable(cfg, s) && AllDone(cfg, s) && a < b < cfg.net.boards
    ensures s.nodes[a].id != s.nodes[b].id
  {
    hide Stacked, Finished, Passed, Tables, Ancestors, Idlers, Routes, Truth, Tree, Rest, Tracked, Visit, Expected;
    var v := DoneHalted(cfg, s);
    HaltedIds(cfg, s, v, a);
    HaltedIds(cfg, s, v, b);
    Positions(cfg, v.d, a, b);
  }

  /** Every id of the range belongs to one board. */
  lemma BoardOf(cfg: Config, s: State, a: nat) returns (b: nat)
    requires cfg.Valid() && Reachable(cfg, s) && AllDone(cfg, s) && cfg.masterId <= a < cfg.masterId + cfg.net.boards
    ensures b < cfg.net.boards && s.nodes[b].id == a
  {
    assert |s.nodes| == cfg.net.boards;
    hide Reachable, AllDone, Expected, Net.Connected;
    forall i | 0 <= i < cfg.net.boards ensures cfg.masterId <= s.nodes[i].id < cfg.masterId + cfg.net.boards {
      DoneId(cfg, s, i);
    }
    forall i, j | 0 <= i < j < cfg.net.boards ensures s.nodes[i].id != s.nodes[j].id {
      DoneDistinct(cfg, s, i, j);
    }
    var ids := seq(cfg.net.boards, i requires 0 <= i < cfg.net.boards => s.nodes[i].id - cfg.masterId);
    Pigeonhole(ids, cfg.net.boards);
    assert a - cfg.masterId in ids;
    b :| 0 <= b < |ids| && ids[b] == a - cfg.masterId;
  }

  lemma DoneMaster(cfg: Config, s: State)
    requires cfg.Valid() && Reachable(cfg, s) && AllDone(cfg, s)
    ensures cfg.master < |s.nodes| && s.nodes[cfg.master].id == cfg.masterId
    ensures s.nodes[cfg.master].next + 1 == cfg.masterId + cfg.net.boards
  {
    hide Stacked, Finished, Passed, Tables, Ancestors, Idlers, Routes, Truth, Tree, Rest, Tracked, Visit, Expected;
    var v := DoneHalted(cfg, s);
    MasterCounts(cfg, s, v);
  }

  lemma MasterCounts(cfg: Config, s: State, v: View)
    requires cfg.Valid() && DiscoveryInv.Inv(cfg, s, v) && v.token.Halted?
    ensures cfg.master < cfg.net.boards && s.nodes[cfg.master].id == cfg.masterId
            && s.nodes[cfg.master].next + 1 == cfg.masterId + cfg.net.boards
    ensures Numbering(cfg, v.d)
  {
    HaltedDone(cfg, s, v);
    AboveOthers(cfg, v.d);
    hide Finished, Passed, Tables, Idlers, Tracked, Linked;
  }

  /** A slot of a table stands for an end of a cable. */
  ghost predicate CableEnd(cfg: Config, s: State, k: Slot)
    requires cfg.net.Valid() && Shape(cfg, s)
  {
    exists p :: p in cfg.net.wire && k == Slot(s.nodes[p.board].id, p.iface)
  }

  /** When all boards are done the master's table is the wiring, renamed by the ids. */
  lemma TopologyExact(cfg: Config, s: State)
    requires cfg.Valid() && Reachable(cfg, s) && AllDone(cfg, s)
    ensures var t := s.nodes[cfg.master].topo;
            && (forall p :: p in cfg.net.wire ==>
                  var k := Slot(s.nodes[p.board].id, p.iface);
                  k in t && t[k] == s.nodes[cfg.net.wire[p].board].id)
            && (forall k {:trigger CableEnd(cfg, s, k)} :: k in t ==> CableEnd(cfg, s, k))
  {
    assert Shape(cfg, s);
    hide DiscoveryInv.Inv, Routes, Truth, Tree, Rest, TableIs, Reachable, Expected;
    var v := DoneHalted(cfg, s);
    MasterTable(cfg, s, v);
    forall b | 0 <= b < cfg.net.boards ensures b in v.d.pos && s.nodes[b].id == Id(cfg, v.d, b) {
      HaltedIds(cfg, s, v, b);
    }
    TableIsWiring(cfg, s, v.d, s.nodes[cfg.master].topo);
  }

  lemma MasterTable(cfg: Config, s: State, v: View)
    requires cfg.Valid() && DiscoveryInv.Inv(cfg, s, v) && v.token.Halted?
    ensures cfg.master < |s.nodes| && TableIs(cfg, v.d, s.nodes[cfg.master].topo, cfg.net.wire.Keys)
  {
    hide Finished, Passed, Ancestors, Idlers, Linked, Scanned, Ends, TableIs, Numbering, Tracked, Retired;
    HaltedDone(cfg, s, v);
    AllScanned(cfg, v.d);
    MasterCounts(cfg, s, v);
    assert v.d.stack[0].board == cfg.master;
    assert TableAt(cfg, s, v.d, 0);
  }

  lemma TableIsWiring(cfg: Config, s: State, d: Search, t: Table)
    requires cfg.net.Valid() && Shape(cfg, s) && TableIs(cfg, d, t, cfg.net.wire.Keys)
    requires forall b :: 0 <= b < cfg.net.boards ==> b in d.pos && s.nodes[b].id == Id(cfg, d, b)
    ensures forall p :: p in cfg.net.wire ==>
              var k := Slot(s.nodes[p.board].id, p.iface);
              k in t && t[k] == s.nodes[cfg.net.wire[p].board].id
    ensures forall k {:trigger CableEnd(cfg, s, k)} :: k in t ==> CableEnd(cfg, s, k)
  {
    forall p | p in cfg.net.wire
      ensures var k := Slot(s.nodes[p.board].id, p.iface); k in t && t[k] == s.nodes[cfg.net.wire[p].board].id
    {
      assert Entry(cfg, d, t, p);
    }
    forall k | k in t ensures CableEnd(cfg, s, k) {
      assert Held(cfg, d, cfg.net.wire.Keys, k);
      var p :| p in cfg.net.wire.Keys && p.board in d.pos && SlotOf(cfg, d, p) == k;
      assert p in cfg.net.wire && k == Slot(s.nodes[p.board].id, p.iface);
    }
  }

  lemma AllScanned(cfg: Config, d: Search)
    requires cfg.net.Valid() && DepthFirst.Inv(cfg, d) && |d.stack| == 1 && Top(d).iface == cfg.net.ifaces
    requires forall b :: 0 <= b < cfg.net.boards <==> b in d.pos
    requires forall b :: 0 <= b < cfg.net.boards && b != cfg.master ==> b in d.last
    ensures Ends(cfg.net, Scanned(cfg, d, 0)) == cfg.net.wire.Keys
  {
    hide Finished, Passed, Linked, Tracked;
    forall p | p in cfg.net.wire ensures p in Scanned(cfg, d, 0) {
      if p.board != cfg.master {
        assert d.order[0] == cfg.master && d.order[d.pos[p.board]] == p.board;
        assert Below(d, 0, p.board);
      }
    }
  }
}
