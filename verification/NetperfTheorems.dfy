/** What a netperf test promises, in every interleaving of its threads. */
module NetperfTheorems {
  import opened Options
  import opened Netperf
  import opened NetperfInv

  ghost predicate Runs(cfg: Config, s: State, acts: seq<Act>)
    decreases |acts|
  {
    acts == [] || (Enabled(cfg, s, acts[0]) && Runs(cfg, Next(cfg, s, acts[0]), acts[1..]))
  }

  ghost function After(cfg: Config, s: State, acts: seq<Act>): State
    requires Runs(cfg, s, acts)
    decreases |acts|
  {
    if acts == [] then s else After(cfg, Next(cfg, s, acts[0]), acts[1..])
  }

  ghost predicate Reached(cfg: Config, junk: Junk, acts: seq<Act>, s: State) {
    cfg.Valid() && Runs(cfg, Start(cfg, junk), acts) && s == After(cfg, Start(cfg, junk), acts)
  }

  lemma {:induction false} RunInv(cfg: Config, s: State, acts: seq<Act>)
    requires Inv(cfg, s) && Runs(cfg, s, acts)
    ensures Inv(cfg, After(cfg, s, acts))
    decreases |acts|
  {
    hide Inv, Enabled, Next;
    if acts != [] {
      NextInv(cfg, s, acts[0]);
      RunInv(cfg, Next(cfg, s, acts[0]), acts[1..]);
    }
  }

  lemma ReachedInv(cfg: Config, junk: Junk, acts: seq<Act>, s: State)
    requires Reached(cfg, junk, acts, s)
    ensures Inv(cfg, s)
  {
    hide Inv, Runs;
    StartInv(cfg, junk);
    RunInv(cfg, Start(cfg, junk), acts);
  }

  // ----- the claims -----

  predicate Covers(c: Claim, b: nat) {
    c.addr <= b < c.addr + c.size
  }

  /** Once the threads have left their loops every byte was claimed by exactly one of the claims,
      and the packets are as few as they can be. */
  lemma BytesClaimedOnce(cfg: Config, junk: Junk, acts: seq<Act>, s: State, b: nat)
    requires Reached(cfg, junk, acts, s) && s.phase >= END && b < cfg.total
    ensures exists i :: 0 <= i < |s.claims| && Covers(s.claims[i], b) &&
                        forall j :: 0 <= j < |s.claims| && Covers(s.claims[j], b) ==> j == i
    ensures s.sent == cfg.total && s.packets == |s.claims|
            && (s.packets - 1) * cfg.payload < cfg.total <= s.packets * cfg.payload
  {
    ReachedInv(cfg, junk, acts, s);
    hide Messages;
    var i := b / cfg.payload;
    Quotient(b, cfg.payload, s.packets);
    assert TileAt(cfg, s.claims[i], i);
    forall j | 0 <= j < |s.claims| && Covers(s.claims[j], b) ensures j == i {
      assert TileAt(cfg, s.claims[j], j);
      Between(b, cfg.payload, j);
    }
  }

  lemma Quotient(b: nat, p: nat, n: nat)
    requires p > 0 && b < n * p
    ensures b / p < n && b / p * p <= b < b / p * p + p
  {
    if b / p >= n {
      Monotone(n, b / p, p);
    }
  }

  lemma Monotone(a: nat, b: nat, p: nat)
    requires a <= b
    ensures a * p <= b * p
  {
  }

  lemma Between(b: nat, p: nat, j: nat)
    requires p > 0 && j * p <= b < j * p + p
    ensures j == b / p
  {
    var i := b / p;
    assert (j + 1) * p == j * p + p && (i + 1) * p == i * p + p;
    if j < i {
      Monotone(j + 1, i, p);
    } else if i < j {
      Monotone(i + 1, j, p);
    }
  }

  /** In every run a thread that leaves its claiming loop finds exactly the total sent, so the block
      after the RDMA loops that would send a tail is never entered; and no thread ever finds more. */
  lemma TailUnreachable(cfg: Config, junk: Junk, acts: seq<Act>, s: State, t: nat)
    requires Reached(cfg, junk, acts, s) && t < |s.pcs| && (s.pcs[t].Loop? || s.pcs[t].Sending? || s.pcs[t].Finish?)
    ensures s.sent <= cfg.total
    ensures s.pcs[t].Finish? || (s.pcs[t].Loop? && !(s.sent < cfg.total)) ==> s.sent == cfg.total
  {
    ReachedInv(cfg, junk, acts, s);
    hide Messages;
    assert PcOk(cfg, s, s.pcs[t]);
  }

  // ----- the end -----

  ghost predicate AllDone(s: State) {
    forall t :: 0 <= t < |s.pcs| ==> s.pcs[t].Done?
  }

  ghost predicate Stuck(cfg: Config, s: State) {
    forall a :: !Enabled(cfg, s, a)
  }

  /** At all times the test was ended at most once and the server replied at most once; for RAW and
      LONG it has replied exactly when it has all the bytes. */
  lemma RepliesOnce(cfg: Config, junk: Junk, acts: seq<Act>, s: State)
    requires Reached(cfg, junk, acts, s)
    ensures s.replied <= 1 && s.ends <= 1
    ensures !cfg.rdma && s.heard && cfg.total > 0 ==> (s.replied == 1 <==> s.received == cfg.total)
  {
    ReachedInv(cfg, junk, acts, s);
    hide Tiles;
  }

  /** When all threads are done, one of them has ended and stopped the test, the server has counted
      all the bytes and replied once, and nothing is left on the way. */
  lemma DoneExact(cfg: Config, junk: Junk, acts: seq<Act>, s: State)
    requires Reached(cfg, junk, acts, s) && AllDone(s)
    ensures s.phase == STOP && s.ends == 1 && s.replied == 1 && s.replies == 0
    ensures s.received == cfg.total && s.net == [] && (cfg.rdma ==> s.written == cfg.total)
  {
    ReachedInv(cfg, junk, acts, s);
    hide Tiles;
    assert PcOk(cfg, s, s.pcs[0]);
    SumZero(s.pcs, Amount);
    assert s.heard && Behind(s) == s.net;
    if !cfg.rdma {
      NoData(s.net);
    }
  }

  lemma NoData(ms: seq<Msg>)
    requires AllData(ms)
    ensures Bytes(ms) == 0 ==> ms == []
  {
  }

  lemma {:induction false} SomeSending(pcs: seq<Pc>)
    requires Sum(pcs, Amount) > 0
    ensures exists t :: 0 <= t < |pcs| && pcs[t].Sending?
  {
    if forall t :: 0 <= t < |pcs| ==> !pcs[t].Sending? {
      SumZero(pcs, Amount);
    }
  }

  /** A thread that waits for the reply will get it: something can still be delivered. */
  lemma ReplyComes(cfg: Config, s: State, t: nat)
    requires Inv(cfg, s) && (cfg.total > 0 || cfg.rdma) && s.holder == Some(t)
    ensures exists a :: Enabled(cfg, s, a)
  {
    hide Tiles, Bytes;
    if s.replies > 0 {
      assert Enabled(cfg, s, Unblock(t));
    } else if s.net != [] {
      assert Enabled(cfg, s, Serve);
    } else {
      assert s.heard && Behind(s) == [];
      NoBytes();
      SomeSending(s.pcs);
      var u :| 0 <= u < |s.pcs| && s.pcs[u].Sending?;
      assert Enabled(cfg, s, Send(u));
    }
  }

  /** A run that can go no further has all threads done, exactly unless a RAW or LONG test was asked
      for no bytes at all: then the server is never moved to reply. */
  lemma EndsIff(cfg: Config, junk: Junk, acts: seq<Act>, s: State)
    requires Reached(cfg, junk, acts, s) && Stuck(cfg, s)
    ensures AllDone(s) <==> cfg.total > 0 || cfg.rdma
  {
    ReachedInv(cfg, junk, acts, s);
    if cfg.total > 0 || cfg.rdma {
      if s.holder.Some? {
        ReplyComes(cfg, s, s.holder.value);
      }
      forall t | 0 <= t < |s.pcs| ensures s.pcs[t].Done? {
        assert !Enabled(cfg, s, Locked(t)) && !Enabled(cfg, s, Send(t));
      }
    } else {
      hide Tiles;
      assert PcOk(cfg, s, s.pcs[0]);
    }
  }

  /** A RAW test of no bytes by one thread, step by step to where it waits for ever. */
  lemma NoBytesHang() returns (cfg: Config, acts: seq<Act>)
    ensures cfg.Valid() && cfg.total == 0 && !cfg.rdma
    ensures Runs(cfg, Start(cfg, Junk(0, 0, 0)), acts) && Stuck(cfg, After(cfg, Start(cfg, Junk(0, 0, 0)), acts))
            && !AllDone(After(cfg, Start(cfg, Junk(0, 0, 0)), acts))
  {
    cfg := Config(0, 1, false, 1);
    var s0 := Start(cfg, Junk(0, 0, 0));
    var a := Locked(0);
    var s1 := Next(cfg, s0, a);
    var s2 := Next(cfg, s1, a);
    var s3 := Next(cfg, s2, a);
    var s4 := Next(cfg, s3, a);
    var s5 := Next(cfg, s4, a);
    assert s5.pcs == [Stopping] && s5.net == [StartMsg(0)];
    var s6 := Next(cfg, s5, Serve);
    assert s6.pcs == [Stopping] && s6.net == [] && s6.replies == 0;
    assert !s6.pcs[0].Done?;
    hide Runs, After;
    RunsOne(cfg, s0, a);
    RunsOne(cfg, s1, a);
    RunsOne(cfg, s2, a);
    RunsOne(cfg, s3, a);
    RunsOne(cfg, s4, a);
    RunsOne(cfg, s5, Serve);
    RunsConcat(cfg, s0, [a], [a]);
    RunsConcat(cfg, s0, [a] + [a], [a]);
    RunsConcat(cfg, s0, [a] + [a] + [a], [a]);
    RunsConcat(cfg, s0, [a] + [a] + [a] + [a], [a]);
    RunsConcat(cfg, s0, [a] + [a] + [a] + [a] + [a], [Serve]);
    acts := [a] + [a] + [a] + [a] + [a] + [Serve];
  }

  // ----- every run ends -----

  function Rank(pc: Pc): nat {
    match pc
    case Begin => 10
    case Enter => 7
    case Loop => 6
    case Sending(_) => 9
    case Finish => 5
    case AtStop => 2
    case Stopping => 1
    case Done => 0
  }

  ghost function Work(cfg: Config, s: State): int {
    4 * (if s.phase < START then cfg.total else cfg.total - s.sent) + Sum(s.pcs, Rank) + 2 * |s.net| + s.replies
  }

  lemma WorkBound(cfg: Config, s: State)
    requires Inv(cfg, s)
    ensures Work(cfg, s) >= 0
  {
    hide Messages, Sum;
  }

  lemma LessClaim(cfg: Config, s: State, t: nat)
    requires Inv(cfg, s) && t < |s.pcs| && s.pcs[t].Loop? && s.sent < cfg.total
    ensures Work(cfg, InLock(cfg, s, t)) < Work(cfg, s)
  {
    hide Sum, Messages, Tiles;
    assert PcOk(cfg, s, s.pcs[t]);
    ClaimTiles(cfg, s, t);
    SumUpdate(s.pcs, Rank, t, InLock(cfg, s, t).pcs[t]);
  }

  lemma LessLocked(cfg: Config, s: State, t: nat)
    requires Inv(cfg, s) && Enabled(cfg, s, Locked(t)) && !(s.pcs[t].Loop? && s.sent < cfg.total)
    ensures Work(cfg, InLock(cfg, s, t)) < Work(cfg, s)
  {
    hide Sum, Messages, Tiles;
    var u := InLock(cfg, s, t);
    assert PcOk(cfg, s, s.pcs[t]);
    SumUpdate(s.pcs, Rank, t, u.pcs[t]);
  }

  lemma LessWork(cfg: Config, s: State, a: Act)
    requires Inv(cfg, s) && Enabled(cfg, s, a)
    ensures Work(cfg, Next(cfg, s, a)) < Work(cfg, s)
  {
    hide Sum, Messages, InLock, Tiles;
    match a {
      case Locked(t) =>
        if s.pcs[t].Loop? && s.sent < cfg.total {
          LessClaim(cfg, s, t);
        } else {
          LessLocked(cfg, s, t);
        }
      case Send(t) =>
        assert PcOk(cfg, s, s.pcs[t]);
        SumUpdate(s.pcs, Rank, t, Loop);
      case Unblock(t) => SumUpdate(s.pcs, Rank, t, Done);
      case Serve =>
    }
  }

  /** No run is longer than the work it starts with. */
  lemma {:induction false} EveryRunEnds(cfg: Config, s: State, acts: seq<Act>)
    requires Inv(cfg, s) && Runs(cfg, s, acts)
    ensures |acts| <= Work(cfg, s)
    decreases |acts|
  {
    hide Inv, Enabled, Next, Work;
    WorkBound(cfg, s);
    if acts != [] {
      NextInv(cfg, s, acts[0]);
      LessWork(cfg, s, acts[0]);
      EveryRunEnds(cfg, Next(cfg, s, acts[0]), acts[1..]);
    }
  }

  // ----- the end message of an RDMA test -----

  /** A single thread, or a test of no bytes, never sends the end message before the writes are done. */
  lemma {:induction false} NotEarly(cfg: Config, s: State, acts: seq<Act>)
    requires Inv(cfg, s) && Runs(cfg, s, acts) && !s.early && (cfg.threads == 1 || cfg.total == 0)
    ensures !After(cfg, s, acts).early
    decreases |acts|
  {
    hide Inv, Enabled, Next;
    if acts != [] {
      NextInv(cfg, s, acts[0]);
      StepNotEarly(cfg, s, acts[0]);
      NotEarly(cfg, Next(cfg, s, acts[0]), acts[1..]);
    }
  }

  lemma StepNotEarly(cfg: Config, s: State, a: Act)
    requires Inv(cfg, s) && Enabled(cfg, s, a) && !s.early && (cfg.threads == 1 || cfg.total == 0)
    ensures !Next(cfg, s, a).early
  {
    hide Tiles;
    if a.Locked? && s.pcs[a.thread].Finish? && cfg.rdma {
      assert PcOk(cfg, s, s.pcs[a.thread]);
      if cfg.threads == 1 {
        SumZero(s.pcs, Amount);
      }
    }
  }

  lemma {:induction false} RunsConcat(cfg: Config, s: State, xs: seq<Act>, ys: seq<Act>)
    requires Runs(cfg, s, xs) && Runs(cfg, After(cfg, s, xs), ys)
    ensures Runs(cfg, s, xs + ys) && After(cfg, s, xs + ys) == After(cfg, After(cfg, s, xs), ys)
    decreases |xs|
  {
    hide Enabled, Next;
    if xs == [] {
      assert xs + ys == ys;
    } else {
      RunsConcat(cfg, Next(cfg, s, xs[0]), xs[1..], ys);
      assert (xs + ys)[1..] == xs[1..] + ys;
    }
  }

  lemma RunsOne(cfg: Config, s: State, a: Act)
    requires Enabled(cfg, s, a)
    ensures Runs(cfg, s, [a]) && After(cfg, s, [a]) == Next(cfg, s, a)
  {
    hide Enabled, Next;
    assert [a][1..] == [];
  }

  /** The first thread claims and writes all but the last claim, which it only claims. */
  lemma {:induction false} ClaimAll(cfg: Config, s: State) returns (acts: seq<Act>)
    requires Inv(cfg, s) && cfg.rdma && s.phase == START && s.holder == None && s.pcs[0].Loop? && s.sent < cfg.total
    ensures Runs(cfg, s, acts)
    ensures var u := After(cfg, s, acts);
            && Inv(cfg, u)
            && u.phase == START
            && u.holder == None
            && u.pcs == s.pcs[0 := u.pcs[0]]
            && u.pcs[0].Sending?
            && u.sent == cfg.total
    decreases cfg.total - s.sent
  {
    hide Messages, Runs, After, Tiles;
    var u := Next(cfg, s, Locked(0));
    NextInv(cfg, s, Locked(0));
    RunsOne(cfg, s, Locked(0));
    if u.sent == cfg.total {
      acts := [Locked(0)];
    } else {
      SentBound(cfg, u);
      var v := Next(cfg, u, Send(0));
      NextInv(cfg, u, Send(0));
      RunsOne(cfg, u, Send(0));
      assert Inv(cfg, v) && v.phase == START && v.holder == None && v.pcs[0].Loop? && v.sent < cfg.total;
      assert u.sent > s.sent by { assert PcOk(cfg, u, u.pcs[0]); }
      var rest := ClaimAll(cfg, v);
      RunsConcat(cfg, s, [Locked(0)], [Send(0)]);
      RunsConcat(cfg, s, [Locked(0)] + [Send(0)], rest);
      acts := [Locked(0)] + [Send(0)] + rest;
    }
  }

  /** Two threads are enough to announce the end of an RDMA test while a write is still to be done:
      one has claimed the last bytes, the other finds nothing left to claim and ends the test. */
  lemma EarlyEnd(cfg: Config, junk: Junk) returns (acts: seq<Act>)
    requires cfg.Valid() && cfg.rdma && cfg.threads > 1 && cfg.total > 0
    ensures Runs(cfg, Start(cfg, junk), acts) && After(cfg, Start(cfg, junk), acts).early
  {
    var s0 := Start(cfg, junk);
    StartInv(cfg, junk);
    var s1, s2 := AtLoop(cfg, s0);
    var xs := ClaimAll(cfg, s2);
    var u := After(cfg, s2, xs);
    assert u.pcs[1].Begin?;
    var ys := FinishSecond(cfg, u);
    hide Runs, After;
    RunsConcat(cfg, s0, s1, xs);
    RunsConcat(cfg, s0, s1 + xs, ys);
    acts := s1 + xs + ys;
  }

  lemma AtLoop(cfg: Config, s: State) returns (acts: seq<Act>, u: State)
    requires Inv(cfg, s) && s.phase == NEW && s.holder == None && cfg.threads > 1
             && s.pcs == seq(cfg.threads, _ => Begin)
    ensures Runs(cfg, s, acts) && After(cfg, s, acts) == u && Inv(cfg, u)
    ensures u.phase == START && u.holder == None && u.sent == 0 && u.pcs[0].Loop? && u.pcs[1].Begin?
  {
    hide Messages, Runs, After, Tiles;
    var t := Next(cfg, s, Locked(0));
    NextInv(cfg, s, Locked(0));
    RunsOne(cfg, s, Locked(0));
    u := Next(cfg, t, Locked(0));
    NextInv(cfg, t, Locked(0));
    RunsOne(cfg, t, Locked(0));
    acts := [Locked(0)] + [Locked(0)];
    RunsConcat(cfg, s, [Locked(0)], [Locked(0)]);
  }

  lemma FinishSecond(cfg: Config, s: State) returns (acts: seq<Act>)
    requires Inv(cfg, s) && cfg.rdma && s.phase == START && s.holder == None && cfg.threads > 1
    requires s.pcs[0].Sending? && s.pcs[1].Begin? && s.sent == cfg.total
    ensures Runs(cfg, s, acts) && After(cfg, s, acts).early
  {
    var a := Locked(1);
    assert s.written < cfg.total by {
      SumAt(s.pcs, Amount, 0);
      assert PcOk(cfg, s, s.pcs[0]);
    }
    hide Messages, Runs, After, Tiles;
    var t := Next(cfg, s, a);
    var u := Next(cfg, t, a);
    var v := Next(cfg, u, a);
    RunsOne(cfg, s, a);
    RunsOne(cfg, t, a);
    RunsOne(cfg, u, a);
    RunsOne(cfg, v, a);
    RunsConcat(cfg, s, [a], [a]);
    RunsConcat(cfg, s, [a] + [a], [a]);
    RunsConcat(cfg, s, [a] + [a] + [a], [a]);
    acts := [a] + [a] + [a] + [a];
  }

  /** So the end message of an RDMA test waits for all the writes, in every run, exactly when there
      is one thread or nothing to write. */
  lemma EndAfterWritesIff(cfg: Config, junk: Junk)
    requires cfg.Valid() && cfg.rdma
    ensures (forall acts :: Runs(cfg, Start(cfg, junk), acts) ==> !After(cfg, Start(cfg, junk), acts).early) <==>
            cfg.threads == 1 || cfg.total == 0
  {
    hide Runs, After, Inv;
    if cfg.threads == 1 || cfg.total == 0 {
      StartInv(cfg, junk);
      forall acts | Runs(cfg, Start(cfg, junk), acts) ensures !After(cfg, Start(cfg, junk), acts).early {
        NotEarly(cfg, Start(cfg, junk), acts);
      }
    } else {
      var acts := EarlyEnd(cfg, junk);
    }
  }
}
