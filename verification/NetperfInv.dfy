/** What every step of a netperf test keeps. */
module NetperfInv {
  import opened Options
  import opened Netperf

  // ----- sums over the threads -----

  ghost function Sum(pcs: seq<Pc>, w: Pc -> nat): nat
    decreases |pcs|
  {
    if pcs == [] then 0 else w(pcs[0]) + Sum(pcs[1..], w)
  }

  lemma {:induction false} SumUpdate(pcs: seq<Pc>, w: Pc -> nat, t: nat, pc: Pc)
    requires t < |pcs|
    ensures Sum(pcs[t := pc], w) + w(pcs[t]) == Sum(pcs, w) + w(pc)
    decreases |pcs|
  {
    if t > 0 {
      SumUpdate(pcs[1..], w, t - 1, pc);
      assert pcs[t := pc][1..] == pcs[1..][t - 1 := pc];
    } else {
      assert pcs[t := pc][1..] == pcs[1..];
    }
  }

  lemma {:induction false} SumAt(pcs: seq<Pc>, w: Pc -> nat, t: nat)
    requires t < |pcs|
    ensures w(pcs[t]) <= Sum(pcs, w)
    decreases |pcs|
  {
    if t > 0 {
      SumAt(pcs[1..], w, t - 1);
    }
  }

  lemma {:induction false} SumZero(pcs: seq<Pc>, w: Pc -> nat)
    requires forall t :: 0 <= t < |pcs| ==> w(pcs[t]) == 0
    ensures Sum(pcs, w) == 0
    decreases |pcs|
  {
    if pcs != [] {
      SumZero(pcs[1..], w);
    }
  }

  function Amount(pc: Pc): nat {
    if pc.Sending? then pc.claim.size else 0
  }

  /** The bytes that were claimed and not sent yet. */
  ghost function Pending(s: State): nat {
    Sum(s.pcs, Amount)
  }

  function Bytes(ms: seq<Msg>): nat
    decreases |ms|
  {
    if ms == [] then 0 else (if ms[0].Data? then ms[0].size else 0) + Bytes(ms[1..])
  }

  lemma {:induction false} BytesAppend(ms: seq<Msg>, m: Msg)
    ensures Bytes(ms + [m]) == Bytes(ms) + (if m.Data? then m.size else 0)
    decreases |ms|
  {
    if ms == [] {
      assert ([] + [m])[1..] == [];
    } else {
      BytesAppend(ms[1..], m);
      assert (ms + [m])[1..] == ms[1..] + [m];
    }
  }

  // ----- the claims -----

  /** The i-th claim starts at i payloads and is a whole payload, unless the total ends it. */
  ghost predicate Tiles(cfg: Config, s: State) {
    && s.packets == |s.claims|
    && (forall i :: 0 <= i < |s.claims| ==> TileAt(cfg, s.claims[i], i))
    && s.sent == Least(cfg.total, s.packets * cfg.payload)
    && (s.packets > 0 ==> (s.packets - 1) * cfg.payload < cfg.total)
  }

  ghost predicate TileAt(cfg: Config, c: Claim, i: nat) {
    c.addr == i * cfg.payload < cfg.total && c.size == Least(cfg.payload, cfg.total - c.addr)
  }

  // ----- the threads -----

  ghost predicate PcOk(cfg: Config, s: State, pc: Pc) {
    match pc
    case Begin => true
    case Enter => s.phase >= INIT
    case Loop => s.phase >= START
    case Sending(c) => s.phase >= START && c.size > 0
    case Finish => s.phase >= START && s.sent == cfg.total
    case AtStop => s.phase >= END
    case Stopping => s.phase == STOP
    case Done => s.phase == STOP
  }

  ghost predicate Threads(cfg: Config, s: State) {
    && |s.pcs| == cfg.threads
    && s.phase <= STOP
    && (forall t :: 0 <= t < |s.pcs| ==> PcOk(cfg, s, s.pcs[t]))
    && (forall t :: 0 <= t < |s.pcs| ==> (s.pcs[t].Stopping? <==> s.holder == Some(t)))
    && (s.holder.Some? ==> s.phase == STOP && s.holder.value < |s.pcs|)
    && (s.phase >= END ==> s.sent == cfg.total)
    && (s.phase < START ==> s.packets == 0 && s.claims == [] && s.written == 0)
    && (s.phase >= START ==> Tiles(cfg, s))
    && s.ends == (if s.phase >= END then 1 else 0)
  }

  // ----- the messages -----

  /** The messages behind a start message that the server has not seen. */
  function Behind(s: State): seq<Msg> {
    if s.phase > NEW && !s.heard && s.net != [] then s.net[1..] else s.net
  }

  ghost predicate AllData(ms: seq<Msg>) {
    forall i :: 0 <= i < |ms| ==> ms[i].Data? && ms[i].size > 0
  }

  ghost predicate Messages(cfg: Config, s: State) {
    && (s.phase == NEW ==> s.net == [] && !s.heard)
    && (s.phase > NEW && !s.heard ==> s.net != [] && s.net[0] == StartMsg(cfg.total) && s.replied == 0)
    && (s.heard ==> s.expected == cfg.total)
    && s.replied == s.replies + (if s.phase == STOP && s.holder == None then 1 else 0)
    && (if cfg.rdma then RdmaMessages(cfg, s) else RawMessages(cfg, s))
  }

  /** Over messages the bytes are counted once: at the server, on the way, or claimed by a thread. */
  ghost predicate RawMessages(cfg: Config, s: State) {
    && AllData(Behind(s))
    && (s.phase < START ==> Behind(s) == [] && Pending(s) == 0 && (s.heard ==> s.received == 0))
    && (s.phase >= START ==> (if s.heard then s.received else 0) + Bytes(Behind(s)) + Pending(s) == s.sent)
    && s.replied == (if s.heard && s.phase >= START && 0 < cfg.total == s.received then 1 else 0)
  }

  ghost predicate RdmaMessages(cfg: Config, s: State) {
    && s.replied <= 1
    && Behind(s) == (if s.phase >= END && s.replied == 0 then [EndMsg(cfg.total)] else [])
    && (s.phase < START ==> Pending(s) == 0)
    && (s.phase >= START ==> s.written + Pending(s) == s.sent)
    && (s.replied == 1 ==> s.heard && s.phase >= END && s.received == cfg.total)
  }

  ghost predicate Inv(cfg: Config, s: State) {
    cfg.Valid() && Threads(cfg, s) && Messages(cfg, s)
  }

  lemma StartInv(cfg: Config, junk: Junk)
    requires cfg.Valid()
    ensures Inv(cfg, Start(cfg, junk))
  {
    SumZero(Start(cfg, junk).pcs, Amount);
  }

  // ----- the steps keep the claims and the threads -----

  lemma ClaimTiles(cfg: Config, s: State, t: nat)
    requires cfg.Valid() && Tiles(cfg, s) && t < |s.pcs| && s.pcs[t].Loop? && s.sent < cfg.total
    ensures Tiles(cfg, InLock(cfg, s, t)) && InLock(cfg, s, t).sent <= cfg.total
    ensures Least(cfg.payload, cfg.total - s.sent) > 0
  {
    var n := s.packets;
    assert s.sent == n * cfg.payload;
    assert (n + 1) * cfg.payload == n * cfg.payload + cfg.payload;
    var u := InLock(cfg, s, t);
    assert TileAt(cfg, u.claims[n], n);
  }

  lemma LockThreads(cfg: Config, s: State, t: nat)
    requires Inv(cfg, s) && Enabled(cfg, s, Locked(t))
    ensures Threads(cfg, InLock(cfg, s, t))
  {
    hide Tiles, Messages;
    var u := InLock(cfg, s, t);
    assert PcOk(cfg, s, s.pcs[t]);
    match s.pcs[t] {
      case Enter =>
        if s.phase == INIT {
          NoTiles(cfg, u);
        } else {
          SameTiles(cfg, s, u);
        }
      case Loop =>
        if s.sent < cfg.total {
          ClaimTiles(cfg, s, t);
        } else {
          SameTiles(cfg, s, u);
          AtTotal(cfg, s);
        }
      case _ => SameTiles(cfg, s, u);
    }
  }

  lemma NoTiles(cfg: Config, s: State)
    requires cfg.Valid() && s.packets == 0 && s.claims == [] && s.sent == 0
    ensures Tiles(cfg, s)
  {
  }

  lemma SameTiles(cfg: Config, s: State, u: State)
    requires u.packets == s.packets && u.claims == s.claims && u.sent == s.sent
    ensures Tiles(cfg, s) ==> Tiles(cfg, u)
  {
  }

  /** The block after the loop that would send a tail is never entered. */
  lemma AtTotal(cfg: Config, s: State)
    requires Tiles(cfg, s) && s.sent >= cfg.total
    ensures s.sent == cfg.total
  {
  }

  // ----- the steps keep the messages -----

  /** Moving a thread moves its amount. */
  lemma PendingMove(s: State, u: State, t: nat)
    requires t < |s.pcs| && |u.pcs| == |s.pcs| && u.pcs == s.pcs[t := u.pcs[t]]
    ensures Pending(u) + Amount(s.pcs[t]) == Pending(s) + Amount(u.pcs[t])
  {
    SumUpdate(s.pcs, Amount, t, u.pcs[t]);
  }

  lemma BeginMessages(cfg: Config, s: State, t: nat)
    requires Inv(cfg, s) && Enabled(cfg, s, Locked(t)) && (s.pcs[t].Begin? || s.pcs[t].Enter?)
    ensures Messages(cfg, InLock(cfg, s, t))
  {
    hide Tiles, Sum, Bytes;
    var u := InLock(cfg, s, t);
    assert PcOk(cfg, s, s.pcs[t]);
    PendingMove(s, u, t);
    assert Bytes([]) == 0 by { NoBytes(); }
    assert s.phase == NEW && s.pcs[t].Begin? ==> u.net == [StartMsg(cfg.total)] && Behind(u) == [];
    assert s.phase != NEW || s.pcs[t].Enter? ==> Behind(u) == Behind(s);
  }

  lemma NoBytes()
    ensures Bytes([]) == 0
  {
  }

  lemma LoopMessages(cfg: Config, s: State, t: nat)
    requires Inv(cfg, s) && Enabled(cfg, s, Locked(t)) && s.pcs[t].Loop?
    ensures Messages(cfg, InLock(cfg, s, t))
  {
    hide Tiles, Sum, Bytes;
    var u := InLock(cfg, s, t);
    assert PcOk(cfg, s, s.pcs[t]);
    PendingMove(s, u, t);
    assert Behind(u) == Behind(s);
  }

  lemma FinishMessages(cfg: Config, s: State, t: nat)
    requires Inv(cfg, s) && Enabled(cfg, s, Locked(t)) && (s.pcs[t].Finish? || s.pcs[t].AtStop?)
    ensures Messages(cfg, InLock(cfg, s, t))
  {
    hide Tiles, Sum, Bytes;
    var u := InLock(cfg, s, t);
    assert PcOk(cfg, s, s.pcs[t]);
    PendingMove(s, u, t);
    if s.pcs[t].Finish? && s.phase == START && cfg.rdma {
      assert Behind(u) == Behind(s) + [EndMsg(s.sent)];
    } else {
      assert Behind(u) == Behind(s);
    }
  }

  lemma LockInv(cfg: Config, s: State, t: nat)
    requires Inv(cfg, s) && Enabled(cfg, s, Locked(t))
    ensures Inv(cfg, InLock(cfg, s, t))
  {
    LockThreads(cfg, s, t);
    hide Threads, Messages, InLock;
    match s.pcs[t] {
      case Begin => BeginMessages(cfg, s, t);
      case Enter => BeginMessages(cfg, s, t);
      case Loop => LoopMessages(cfg, s, t);
      case Finish => FinishMessages(cfg, s, t);
      case AtStop => FinishMessages(cfg, s, t);
    }
  }

  lemma SendInv(cfg: Config, s: State, t: nat)
    requires Inv(cfg, s) && Enabled(cfg, s, Send(t))
    ensures Inv(cfg, Next(cfg, s, Send(t)))
  {
    hide Tiles, Sum, Bytes;
    var u := Next(cfg, s, Send(t));
    assert PcOk(cfg, s, s.pcs[t]);
    SameTiles(cfg, s, u);
    PendingMove(s, u, t);
    if cfg.rdma {
      assert Behind(u) == Behind(s);
    } else {
      assert Behind(u) == Behind(s) + [Data(s.pcs[t].claim.size)];
      BytesAppend(Behind(s), Data(s.pcs[t].claim.size));
    }
  }

  lemma UnblockInv(cfg: Config, s: State, t: nat)
    requires Inv(cfg, s) && Enabled(cfg, s, Unblock(t))
    ensures Inv(cfg, Next(cfg, s, Unblock(t)))
  {
    hide Tiles, Sum, Bytes;
    var u := Next(cfg, s, Unblock(t));
    SameTiles(cfg, s, u);
    PendingMove(s, u, t);
    assert Behind(u) == Behind(s);
  }

  lemma ServeThreads(cfg: Config, s: State)
    requires Inv(cfg, s) && Enabled(cfg, s, Serve)
    ensures Threads(cfg, Next(cfg, s, Serve))
  {
    hide Sum, Bytes, Tiles, Messages;
    var u := Next(cfg, s, Serve);
    SameTiles(cfg, s, u);
    assert forall t :: 0 <= t < |s.pcs| ==> PcOk(cfg, s, s.pcs[t]) ==> PcOk(cfg, u, u.pcs[t]);
  }

  lemma ServeStart(cfg: Config, s: State)
    requires Inv(cfg, s) && Enabled(cfg, s, Serve) && !s.heard
    ensures Messages(cfg, Next(cfg, s, Serve))
  {
    hide Sum, Tiles, Threads, Bytes;
    var u := Next(cfg, s, Serve);
    assert Behind(u) == s.net[1..] == Behind(s);
    assert Pending(u) == Pending(s);
    assert s.phase <= STOP && (s.phase >= START ==> s.sent <= cfg.total) by { SentBound(cfg, s); }
    if !cfg.rdma && s.phase >= START && cfg.total == 0 {
      assert u.received == 0;
    }
  }

  lemma SentBound(cfg: Config, s: State)
    requires Threads(cfg, s)
    ensures s.phase <= STOP && (s.phase >= START ==> s.sent <= cfg.total)
  {
  }

  /** The server replies on the last byte, and not before. */
  lemma ServeData(cfg: Config, s: State)
    requires Inv(cfg, s) && Enabled(cfg, s, Serve) && s.heard && !cfg.rdma
    ensures Messages(cfg, Next(cfg, s, Serve)) && s.replied == 0
  {
    hide Sum, Tiles, Threads;
    SentBound(cfg, s);
    var u := Next(cfg, s, Serve);
    assert s.net[0].Data? && s.net[0].size > 0 by { assert Behind(s)[0] == s.net[0]; }
    assert Behind(u) == s.net[1..] && Behind(s) == s.net;
    assert Bytes(s.net) == s.net[0].size + Bytes(s.net[1..]);
    assert Pending(u) == Pending(s);
    assert s.phase >= START;
    assert s.received < s.sent <= cfg.total;
  }

  lemma ServeEnd(cfg: Config, s: State)
    requires Inv(cfg, s) && Enabled(cfg, s, Serve) && s.heard && cfg.rdma
    ensures Messages(cfg, Next(cfg, s, Serve))
  {
    hide Sum, Tiles, Threads, Bytes;
    SentBound(cfg, s);
    var u := Next(cfg, s, Serve);
    assert s.net == [EndMsg(cfg.total)] && Behind(u) == [];
    assert Pending(u) == Pending(s);
  }

  lemma NextInv(cfg: Config, s: State, a: Act)
    requires Inv(cfg, s) && Enabled(cfg, s, a)
    ensures Inv(cfg, Next(cfg, s, a))
  {
    hide Threads, Messages, Enabled, InLock;
    match a {
      case Locked(t) => LockInv(cfg, s, t);
      case Send(t) => SendInv(cfg, s, t);
      case Unblock(t) => UnblockInv(cfg, s, t);
      case Serve =>
        ServeThreads(cfg, s);
        if !s.heard {
          ServeStart(cfg, s);
        } else if cfg.rdma {
          ServeEnd(cfg, s);
        } else {
          ServeData(cfg, s);
        }
    }
  }
}
