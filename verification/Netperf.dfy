/** axiom-netperf: the threads of a client that claim the bytes to send, and the server that counts them. */
module Netperf {
  import opened Options

  /** What a client is asked to do. The payload size is at least one: the init steps check it. */
  datatype Config = Config(total: nat, payload: nat, rdma: bool, threads: nat) {
    ghost predicate Valid() {
      payload > 0 && threads > 0
    }
  }

  /** The client's state field, in its order. */
  const NEW: nat := 0
  const INIT: nat := 1
  const START: nat := 2
  const END: nat := 3
  const STOP: nat := 4

  datatype Claim = Claim(addr: nat, size: nat)

  datatype Msg = StartMsg(total: nat) | Data(size: nat) | EndMsg(total: nat)

  /** Where a thread stands: between two of its locked regions, sending what it claimed, or inside
      the stop region, where it keeps the lock until the server's reply is there. */
  datatype Pc = Begin | Enter | Loop | Sending(claim: Claim) | Finish | AtStop | Stopping | Done

  datatype State = State(
    phase: nat, pcs: seq<Pc>, sent: nat, packets: nat, claims: seq<Claim>, written: nat,
    net: seq<Msg>, heard: bool, expected: nat, received: nat,
    replies: nat, replied: nat, holder: Option<nat>, ends: nat, early: bool)

  datatype Act = Locked(thread: nat) | Send(thread: nat) | Unblock(thread: nat) | Serve

  function Least(a: nat, b: nat): nat {
    if a < b then a else b
  }

  /** The server's account after a message, and whether it replies. */
  function Account(expected: nat, received: nat, m: Msg): (nat, nat, bool) {
    match m
    case StartMsg(total) => (total, 0, false)
    case Data(size) => (expected, received + size, received + size >= expected)
    case EndMsg(total) => (expected, total, true)
  }

  predicate Enabled(cfg: Config, s: State, a: Act) {
    match a
    case Locked(t) => t < |s.pcs| && s.holder == None && !s.pcs[t].Sending? && !s.pcs[t].Stopping? && !s.pcs[t].Done?
    case Send(t) => t < |s.pcs| && s.pcs[t].Sending?
    case Unblock(t) => t < |s.pcs| && s.pcs[t].Stopping? && s.replies > 0
    case Serve => s.net != []
  }

  function Move(s: State, t: nat, pc: Pc): State
    requires t < |s.pcs|
  {
    s.(pcs := s.pcs[t := pc])
  }

  /** A locked region of a thread. The first thread in each sends the start message, clears the
      count, ends the test and stops it; any thread claims the next bytes. */
  function InLock(cfg: Config, s: State, t: nat): State
    requires t < |s.pcs|
  {
    match s.pcs[t]
    case Begin =>
      if s.phase == NEW then Move(s, t, Enter).(phase := INIT, net := s.net + [StartMsg(cfg.total)])
      else Move(s, t, Enter)
    case Enter =>
      if s.phase == INIT then Move(s, t, Loop).(phase := START, sent := 0) else Move(s, t, Loop)
    case Loop =>
      if s.sent < cfg.total then
        var c := Claim(s.sent, Least(cfg.payload, cfg.total - s.sent));
        Move(s, t, Sending(c)).(packets := s.packets + 1, sent := s.sent + c.size, claims := s.claims + [c])
      else Move(s, t, Finish)
    case Finish =>
      if s.phase == START then
        Move(s, t, AtStop).(phase := END, ends := s.ends + 1,
                            net := if cfg.rdma then s.net + [EndMsg(s.sent)] else s.net,
                            early := cfg.rdma && s.written < cfg.total)
      else Move(s, t, AtStop)
    case AtStop =>
      if s.phase == END then Move(s, t, Stopping).(phase := STOP, holder := Some(t)) else Move(s, t, Done)
    case _ => s
  }

  function Next(cfg: Config, s: State, a: Act): State
    requires Enabled(cfg, s, a)
  {
    match a
    case Locked(t) => InLock(cfg, s, t)
    case Send(t) =>
      var c := s.pcs[t].claim;
      if cfg.rdma then Move(s, t, Loop).(written := s.written + c.size)
      else Move(s, t, Loop).(net := s.net + [Data(c.size)])
    case Unblock(t) => Move(s, t, Done).(replies := s.replies - 1, holder := None)
    case Serve =>
      var (expected, received, reply) := Account(s.expected, s.received, s.net[0]);
      s.(net := s.net[1..], heard := s.heard || s.net[0].StartMsg?, expected := expected, received := received,
         replies := if reply then s.replies + 1 else s.replies, replied := if reply then s.replied + 1 else s.replied)
  }

  /** What an earlier test may have left: the client's count, and the server's account of the node. */
  datatype Junk = Junk(sent: nat, expected: nat, received: nat)

  function Start(cfg: Config, junk: Junk): State {
    State(NEW, seq(cfg.threads, _ => Begin), junk.sent, 0, [], 0, [], false, junk.expected, junk.received,
          0, 0, None, 0, false)
  }

  // ----- the code -----

  /** The counters that the threads share, under the lock. */
  class Shared {
    var sent: nat
    var packets: nat
    const total: nat

    constructor (total: nat)
      ensures this.total == total && sent == 0 && packets == 0
    {
      this.total, sent, packets := total, 0, 0;
    }

    /** One pass of the loop head. A thread's payload size shrinks for its last claim only. */
    method Next(payload: nat) returns (claimed: bool, addr: nat, size: nat)
      requires payload > 0
      modifies this
      ensures claimed == (old(sent) < total)
      ensures claimed ==>
                && addr == old(sent) && 0 < size == Least(payload, total - old(sent))
                && sent == addr + size && packets == old(packets) + 1
      ensures claimed ==> sent <= total
      ensures !claimed ==> sent == old(sent) && packets == old(packets) && size == payload
    {
      claimed, addr, size := false, 0, payload;
      if sent < total {
        if total - sent < size {
          size := total - sent;
        }
        claimed, addr := true, sent;
        packets := packets + 1;
        sent := sent + size;
      }
    }
  }

  /** The server's account of one source node. */
  class Session {
    var expected: nat
    var received: nat

    constructor ()
      ensures expected == 0 && received == 0
    {
      expected, received := 0, 0;
    }

    method Receive(m: Msg) returns (reply: bool)
      modifies this
      ensures (expected, received, reply) == Account(old(expected), old(received), m)
    {
      reply := false;
      match m {
        case StartMsg(total) => expected, received := total, 0;
        case EndMsg(total) => received, reply := total, true;
        case Data(size) =>
          received := received + size;
          if received >= expected {
            reply := true;
          }
      }
    }
  }
}
