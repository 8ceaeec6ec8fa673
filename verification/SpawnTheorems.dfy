/** What callers of remote execution can rely on, over whole runs. */
module SpawnTheorems {
  import opened Options
  import opened Spawn
  import opened SpawnRuns

  ghost predicate Runs(s: System, acts: seq<Act>)
    decreases |acts|
  {
    acts == [] || (Enabled(s, acts[0]) && Runs(Next(s, acts[0]), acts[1..]))
  }

  ghost function After(s: System, acts: seq<Act>): System
    requires Runs(s, acts)
    decreases |acts|
  {
    if acts == [] then s else After(Next(s, acts[0]), acts[1..])
  }

  /** A client keeps its job. */
  ghost predicate Same(s: System, t: System) {
    |t.clients| == |s.clients| && forall c :: 0 <= c < |s.clients| ==> t.clients[c].job == s.clients[c].job
  }

  lemma NextInv(s: System, a: Act)
    requires Inv(s) && Enabled(s, a)
    ensures Inv(Next(s, a)) && Same(s, Next(s, a))
  {
    assert Same(s, Next(s, a)) by { hide Inv, Handle, Open; }
    hide Inv, Enabled, Next;
    match a
    case Ask(c) => AskInv(s, c);
    case Take(c) => TakeInv(s, c);
  }

  lemma {:induction false} RunInv(s: System, acts: seq<Act>)
    requires Inv(s) && Runs(s, acts)
    ensures Inv(After(s, acts)) && Same(s, After(s, acts))
    decreases |acts|
  {
    hide Inv, Enabled, Next;
    if acts != [] {
      NextInv(s, acts[0]);
      RunInv(Next(s, acts[0]), acts[1..]);
    }
  }

  /** A caller is kept exactly when some slot is empty at its first message. */
  lemma KeptIff(s: System, c: nat)
    requires Inv(s) && Enabled(s, Take(c)) && s.clients[c].phase.taken == 0
    ensures var p := Next(s, Take(c)).clients[c].phase;
            p.Live? && (p.kept <==> exists i :: 0 <= i < |s.server.slots| && s.server.slots[i].session == EMPTY)
  {
    hide PutAll, Fill, Put, Opening, Stream, Injective;
    var cl := s.clients[c];
    assert Kept(s.server, cl);
    StreamShape(cl.phase.session, cl.job, 0);
  }

  /** Over any run with any number of callers: a caller's program is run exactly as the caller asked
      if and only if its first message found an empty slot. */
  lemma LaunchExactIff(jobs: seq<Job>, acts: seq<Act>, c: nat)
    requires Runs(Start(jobs), acts) && c < |jobs|
    ensures var s := After(Start(jobs), acts);
            && |s.clients| == |jobs|
            && (s.clients[c].phase.Done? ==>
               (s.clients[c].phase.kept <==> s.clients[c].phase.launch == Wanted(jobs[c])))
            && (s.clients[c].phase.Live?
                && s.clients[c].phase.taken == |Stream(s.clients[c].phase.session, jobs[c])| ==>
                  !s.clients[c].phase.kept)
  {
    hide PutAll, Opening, Stream, Injective, Next, Enabled;
    StartInv(jobs);
    RunInv(Start(jobs), acts);
    var s := After(Start(jobs), acts);
    assert s.clients[c].job == jobs[c] && Kept(s.server, s.clients[c]);
    if s.clients[c].phase.Live? {
      StreamLong(s.clients[c].phase.session, jobs[c]);
    }
  }

  /** A message with a session that no live caller has changes nothing. */
  lemma StrayIgnored(jobs: seq<Job>, acts: seq<Act>, m: Msg)
    requires Runs(Start(jobs), acts) && !Owned(After(Start(jobs), acts).clients, m.session)
    ensures var s := After(Start(jobs), acts).server; Sized(s) && Handle(s, m) == (s, Ignored)
  {
    hide PutAll, Opening, Stream, Injective, Next, Enabled, Kept, Put;
    StartInv(jobs);
    RunInv(Start(jobs), acts);
  }

  // ----- lost sessions -----

  /** A caller that has sent its whole stream and whose program was not run. */
  predicate Spent(cl: Client) {
    cl.phase.Live? && cl.phase.taken == |Stream(cl.phase.session, cl.job)|
  }

  /** No slot is the session's own, and none is empty. */
  predicate Crowded(slots: seq<Slot>, session: nat) {
    forall i :: 0 <= i < |slots| ==> slots[i].session != session && slots[i].session != EMPTY
  }

  /** A message is dropped exactly when there is no slot for it. */
  lemma IgnoredIff(s: Server, m: Msg)
    requires Sized(s) && Used(s, m.session)
    ensures Handle(s, m).1 == Ignored <==> Crowded(s.slots, m.session)
    ensures Handle(s, m).1 == Ignored ==> Handle(s, m).0 == s
  {
    hide Put;
  }

  /** The last message of a caller leaves its session to nobody exactly when no slot is its own or
      empty; otherwise the program is run. */
  lemma SessionLostIff(s: System, c: nat)
    requires Inv(s) && Enabled(s, Take(c))
             && s.clients[c].phase.taken + 1 == |Stream(s.clients[c].phase.session, s.clients[c].job)|
    ensures var cl := s.clients[c]; var next := Next(s, Take(c)).clients[c];
            && (Spent(next) <==> Crowded(s.server.slots, cl.phase.session))
            && (!Spent(next) ==> next.phase.Done?)
            && (Spent(next) ==> next.phase.session == cl.phase.session)
  {
    hide PutAll, Opening, Stream, Injective, Handle;
    var cl := s.clients[c];
    assert Kept(s.server, cl);
    StreamLong(cl.phase.session, cl.job);
    StreamShape(cl.phase.session, cl.job, cl.phase.taken);
    var m := Stream(cl.phase.session, cl.job)[cl.phase.taken];
    IgnoredIff(s.server, m);
    HandleSized(s.server, m);
  }

  /** A lost session stays in use, whatever happens. */
  lemma {:induction false} LostForGood(s: System, acts: seq<Act>, c: nat)
    requires Inv(s) && Runs(s, acts) && c < |s.clients| && Spent(s.clients[c])
    ensures var t := After(s, acts);
            && Sized(t.server) && c < |t.clients|
            && t.clients[c] == s.clients[c] && Used(t.server, s.clients[c].phase.session)
    decreases |acts|
  {
    hide PutAll, Opening, Stream, Injective, Handle, Open;
    if acts == [] {
      assert Kept(s.server, s.clients[c]);
    } else {
      hide Inv;
      NextInv(s, acts[0]);
      LostForGood(Next(s, acts[0]), acts[1..], c);
    }
  }

  /** Live callers have sessions of their own, and no two slots serve one session. */
  lemma NoSharing(jobs: seq<Job>, acts: seq<Act>, c: nat, d: nat)
    requires Runs(Start(jobs), acts) && c < |jobs| && d < |jobs| && c != d
    ensures var s := After(Start(jobs), acts);
            && |s.clients| == |jobs|
            && Injective(s.server.slots)
            && (s.clients[c].phase.Live? && s.clients[d].phase.Live? ==>
               s.clients[c].phase.session != s.clients[d].phase.session)
  {
    hide PutAll, Opening, Stream, Injective, Next, Enabled, Kept;
    StartInv(jobs);
    RunInv(Start(jobs), acts);
    assert Distinct(After(Start(jobs), acts).clients, c, d);
  }

  /** When no caller is live any more, every slot is empty and every session free. */
  lemma AllGivenBack(jobs: seq<Job>, acts: seq<Act>)
    requires Runs(Start(jobs), acts)
    requires forall c :: 0 <= c < |After(Start(jobs), acts).clients| ==>
             !After(Start(jobs), acts).clients[c].phase.Live?
    ensures var s := After(Start(jobs), acts).server;
            && Sized(s)
            && (forall n :: 0 <= n < SESSIONS ==> s.free[n])
            && (forall i :: 0 <= i < |s.slots| ==> s.slots[i].session == EMPTY)
  {
    hide PutAll, Opening, Stream, Injective, Next, Enabled, Kept;
    StartInv(jobs);
    RunInv(Start(jobs), acts);
  }

  // ----- runs with no more callers at a time than slots -----

  ghost function LiveSet(s: System): set<nat> {
    set c | 0 <= c < |s.clients| && s.clients[c].phase.Live?
  }

  ghost predicate Few(s: System) {
    |LiveSet(s)| <= MAX_CONCURRENT_SPAWNS
  }

  ghost predicate RunsFew(s: System, acts: seq<Act>)
    decreases |acts|
  {
    Few(s) && (acts == [] || (Enabled(s, acts[0]) && RunsFew(Next(s, acts[0]), acts[1..])))
  }

  ghost function Owner(s: System, session: nat): (c: nat)
    requires Owned(s.clients, session)
    ensures c < |s.clients| && s.clients[c].phase.Live? && s.clients[c].phase.session == session && c in LiveSet(s)
  {
    var c :| 0 <= c < |s.clients| && s.clients[c].phase.Live? && s.clients[c].phase.session == session;
    c
  }

  lemma Five(s: set<nat>, a: nat, b: nat, c: nat, d: nat, e: nat)
    requires {a, b, c, d, e} <= s && a != b && a != c && a != d && a != e && b != c && b != d && b != e && c != d
             && c != e && d != e
    ensures |s| > 4
  {
    var t := {a, b, c, d, e};
    assert |t| == 5;
    assert s == t + (s - t);
  }

  /** With few callers a session is never refused. */
  lemma SessionFree(s: System)
    requires Inv(s) && Few(s)
    ensures Open(s.server).1 != EMPTY
  {
    hide PutAll, Opening, Stream, Injective, Next, Enabled, Kept;
    if Open(s.server).1 == EMPTY {
      assert forall n :: 0 <= n < SESSIONS ==> !s.server.free[n];
      Five(LiveSet(s), Owner(s, 0), Owner(s, 1), Owner(s, 2), Owner(s, 3), Owner(s, 4));
      assert false;
    }
  }

  /** With few callers a first message always finds an empty slot. */
  lemma SlotFree(s: System, c: nat)
    requires Inv(s) && Few(s) && c < |s.clients| && s.clients[c].phase.Live? && s.clients[c].phase.taken == 0
    ensures exists i :: 0 <= i < |s.server.slots| && s.server.slots[i].session == EMPTY
  {
    hide PutAll, Opening, Stream, Next, Enabled;
    var ts := s.server.slots;
    assert Kept(s.server, s.clients[c]);
    if forall i :: 0 <= i < |ts| ==> ts[i].session != EMPTY {
      assert forall i :: 0 <= i < |ts| ==> Used(s.server, ts[i].session);
      assert c in LiveSet(s);
      assert forall i :: 0 <= i < |ts| ==> ts[i].session != s.clients[c].phase.session;
      Five(LiveSet(s), Owner(s, ts[0].session), Owner(s, ts[1].session), Owner(s, ts[2].session),
          Owner(s, ts[3].session), c);
      assert false;
    }
  }

  /** Nobody was refused anything. */
  ghost predicate Served(cl: Client) {
    match cl.phase
    case Fresh => true
    case Denied => false
    case Live(session, taken, kept) => taken > 0 ==> kept
    case Done(launch, kept) => kept
  }

  lemma NextServed(s: System, a: Act)
    requires Inv(s) && Few(s) && Enabled(s, a) && forall c :: 0 <= c < |s.clients| ==> Served(s.clients[c])
    ensures forall c :: 0 <= c < |Next(s, a).clients| ==> Served(Next(s, a).clients[c])
  {
    if a.Take? && s.clients[a.client].phase.taken == 0 {
      KeptIff(s, a.client);
      SlotFree(s, a.client);
    } else if a.Ask? {
      SessionFree(s);
    }
    hide Inv, Handle, Few, Open;
    var t := Next(s, a);
    forall c | 0 <= c < |t.clients| ensures Served(t.clients[c]) {
      assert c != a.client ==> t.clients[c] == s.clients[c];
    }
  }

  lemma {:induction false} RunServed(s: System, acts: seq<Act>)
    requires Inv(s) && RunsFew(s, acts) && forall c :: 0 <= c < |s.clients| ==> Served(s.clients[c])
    ensures Runs(s, acts) && forall c :: 0 <= c < |After(s, acts).clients| ==> Served(After(s, acts).clients[c])
    decreases |acts|
  {
    hide Inv, Enabled, Next, Served, Few;
    if acts != [] {
      NextInv(s, acts[0]);
      NextServed(s, acts[0]);
      RunServed(Next(s, acts[0]), acts[1..]);
    }
  }

  ghost predicate Stuck(s: System) {
    forall a :: !Enabled(s, a)
  }

  /** Callers do not interfere: as long as no more than four are live at a time, every program that
      is run is run exactly as its caller asked, and when nothing more can happen every caller's
      program was run. */
  lemma NoInterference(jobs: seq<Job>, acts: seq<Act>)
    requires RunsFew(Start(jobs), acts)
    ensures Runs(Start(jobs), acts)
    ensures var s := After(Start(jobs), acts);
            && |s.clients| == |jobs|
            && (forall c :: 0 <= c < |jobs| && s.clients[c].phase.Done? ==>
               s.clients[c].phase.launch == Wanted(jobs[c]))
            && (Stuck(s) ==> forall c :: 0 <= c < |jobs| ==> s.clients[c].phase.Done?)
  {
    StartInv(jobs);
    assert forall c :: 0 <= c < |jobs| ==> Served(Start(jobs).clients[c]);
    hide Inv, Served, Next, Enabled, Few;
    RunServed(Start(jobs), acts);
    RunInv(Start(jobs), acts);
    var s := After(Start(jobs), acts);
    forall c | 0 <= c < |jobs|
      ensures s.clients[c].phase.Done? ==> s.clients[c].phase.launch == Wanted(jobs[c])
      ensures Stuck(s) ==> s.clients[c].phase.Done?
    {
      LaunchExactIff(jobs, acts, c);
      ServedCan(s, c);
    }
  }

  /** A served caller that is not done can move on. */
  lemma ServedCan(s: System, c: nat)
    requires Inv(s) && c < |s.clients| && Served(s.clients[c])
    ensures s.clients[c].phase.Done? ==> s.clients[c].phase.kept
    ensures !s.clients[c].phase.Done? ==> Enabled(s, Ask(c)) || Enabled(s, Take(c))
  {
    hide PutAll, Opening, Stream, Injective;
    assert Kept(s.server, s.clients[c]);
    if s.clients[c].phase.Live? {
      StreamLong(s.clients[c].phase.session, s.clients[c].job);
    }
  }

  // ----- one caller too many -----

  function CrowdSlot(job: Job, k: nat, i: nat): Slot
    requires i < MAX_CONCURRENT_SPAWNS
  {
    if i + k >= MAX_CONCURRENT_SPAWNS then Slot(MAX_CONCURRENT_SPAWNS - 1 - i, Some(job.filename), None, [], [])
    else Blank(EMPTY)
  }

  /** k callers have each sent one message. */
  function Crowd(job: Job, k: nat): System
    requires k <= MAX_CONCURRENT_SPAWNS
  {
    System(Server(seq(SESSIONS, i => i >= k),
                  seq(MAX_CONCURRENT_SPAWNS, i requires 0 <= i < MAX_CONCURRENT_SPAWNS => CrowdSlot(job, k, i))),
           seq(MAX_CONCURRENT_SPAWNS + 1, c requires c >= 0 => Client(job, if c < k then Live(c, 1, true) else Fresh)))
  }

  lemma CrowdShape(job: Job, k: nat)
    requires k <= MAX_CONCURRENT_SPAWNS
    ensures var s := Crowd(job, k).server;
            && Sized(s)
            && Open(s).1 == k
            && Place(s.slots, k) == (if k == MAX_CONCURRENT_SPAWNS then k else MAX_CONCURRENT_SPAWNS - 1 - k)
            && forall i :: 0 <= i < |s.slots| ==> s.slots[i].session != k
  {
    var s := Crowd(job, k).server;
    assert s.free[k] && forall j :: 0 <= j < k ==> !s.free[j];
    var p := MAX_CONCURRENT_SPAWNS - 1 - k;
    assert forall i :: 0 <= i < |s.slots| ==> s.slots[i] == CrowdSlot(job, k, i);
    assert k < MAX_CONCURRENT_SPAWNS ==> s.slots[p].session == EMPTY;
  }

  /** Another caller asks for a session and sends its first message. */
  lemma Join(job: Job, k: nat)
    requires k < MAX_CONCURRENT_SPAWNS
    ensures Enabled(Crowd(job, k), Ask(k)) && Enabled(Next(Crowd(job, k), Ask(k)), Take(k))
    ensures Next(Next(Crowd(job, k), Ask(k)), Take(k)) == Crowd(job, k + 1)
  {
    var s, t := Crowd(job, k), Next(Crowd(job, k), Ask(k));
    CrowdShape(job, k);
    assert t.clients[k].phase == Live(k, 0, false) && t.server.slots == s.server.slots;
    StreamLong(k, job);
    assert Stream(k, job)[0] == Msg(k, Exe, true, false, job.filename);
    var u := Next(t, Take(k));
    assert u.server.slots == Crowd(job, k + 1).server.slots;
    assert u.server.free == Crowd(job, k + 1).server.free;
    assert u.clients == Crowd(job, k + 1).clients;
  }

  /** The callers from k on start, one after another. */
  function Starts(k: nat): seq<Act>
    requires k <= MAX_CONCURRENT_SPAWNS
    decreases MAX_CONCURRENT_SPAWNS - k
  {
    [Ask(k), Take(k)] + if k == MAX_CONCURRENT_SPAWNS then [] else Starts(k + 1)
  }

  lemma {:induction false} CrowdLost(job: Job, k: nat)
    requires k <= MAX_CONCURRENT_SPAWNS
    ensures Runs(Crowd(job, k), Starts(k)) && Full(job, After(Crowd(job, k), Starts(k)))
    decreases MAX_CONCURRENT_SPAWNS - k
  {
    hide Next, Enabled, Full;
    var acts := Starts(k);
    assert acts[1..][1..] == acts[2..];
    if k == MAX_CONCURRENT_SPAWNS {
      LastLost(job);
      LastFull(job);
      assert acts[2..] == [];
      var t := Next(Crowd(job, k), Ask(k));
      assert Runs(Next(t, Take(k)), acts[2..]) && After(Next(t, Take(k)), acts[2..]) == Next(t, Take(k));
      assert After(t, acts[1..]) == After(Next(t, Take(k)), acts[2..]);
    } else {
      Join(job, k);
      CrowdLost(job, k + 1);
      assert acts[2..] == Starts(k + 1);
    }
  }

  lemma LastLost(job: Job)
    ensures var k := MAX_CONCURRENT_SPAWNS; var s := Crowd(job, k);
            && Enabled(s, Ask(k))
            && Enabled(Next(s, Ask(k)), Take(k))
            && Next(Next(s, Ask(k)), Take(k)) ==
               System(Open(s.server).0, s.clients[k := Client(job, Live(k, 1, false))])
  {
    var k := MAX_CONCURRENT_SPAWNS;
    var s := Crowd(job, k);
    var t := Next(s, Ask(k));
    CrowdShape(job, k);
    StreamLong(k, job);
    assert Stream(k, job)[0] == Msg(k, Exe, true, false, job.filename);
  }

  /** What the fifth caller finds: all slots taken, by the others. */
  ghost predicate Full(job: Job, s: System) {
    && Sized(s.server) && |s.clients| == MAX_CONCURRENT_SPAWNS + 1
    && s.clients[MAX_CONCURRENT_SPAWNS] == Client(job, Live(MAX_CONCURRENT_SPAWNS, 1, false))
    && Used(s.server, MAX_CONCURRENT_SPAWNS) && Crowded(s.server.slots, MAX_CONCURRENT_SPAWNS)
  }

  lemma LastFull(job: Job)
    ensures var k := MAX_CONCURRENT_SPAWNS; var s := Crowd(job, k);
            Full(job, System(Open(s.server).0, s.clients[k := Client(job, Live(k, 1, false))]))
  {
    var s := Crowd(job, MAX_CONCURRENT_SPAWNS).server;
    CrowdShape(job, MAX_CONCURRENT_SPAWNS);
    assert forall i :: 0 <= i < |s.slots| ==> s.slots[i] == CrowdSlot(job, MAX_CONCURRENT_SPAWNS, i);
  }

  /** The fifth of five callers that start together loses its executable: its first message is dropped. */
  lemma FifthLost(job: Job)
    ensures Runs(Start(seq(5, _ => job)), Starts(0))
    ensures Full(job, After(Start(seq(5, _ => job)), Starts(0)))
  {
    CrowdLost(job, 0);
    assert Start(seq(5, _ => job)).server == Crowd(job, 0).server;
    assert Start(seq(5, _ => job)).clients == Crowd(job, 0).clients;
  }

  // ----- and its session -----

  lemma {:induction false} RunsConcat(s: System, xs: seq<Act>, ys: seq<Act>)
    requires Runs(s, xs) && Runs(After(s, xs), ys)
    ensures Runs(s, xs + ys) && After(s, xs + ys) == After(After(s, xs), ys)
    decreases |xs|
  {
    hide Enabled, Next;
    if xs == [] {
      assert xs + ys == ys;
    } else {
      RunsConcat(Next(s, xs[0]), xs[1..], ys);
      assert (xs + ys)[1..] == xs[1..] + ys;
    }
  }

  /** While the slots are taken, every message of a caller is dropped, to the last. */
  lemma {:induction false} AllDropped(s: System, c: nat) returns (acts: seq<Act>)
    requires Sized(s.server) && c < |s.clients| && s.clients[c].phase.Live? && s.clients[c].phase.taken > 0
    requires s.clients[c].phase.taken <= |Stream(s.clients[c].phase.session, s.clients[c].job)|
    requires Used(s.server, s.clients[c].phase.session) && Crowded(s.server.slots, s.clients[c].phase.session)
    ensures Runs(s, acts)
    ensures var t := After(s, acts);
            && t.server == s.server && |t.clients| == |s.clients|
            && Spent(t.clients[c]) && t.clients[c].phase.session == s.clients[c].phase.session
    decreases |Stream(s.clients[c].phase.session, s.clients[c].job)| - s.clients[c].phase.taken
  {
    hide PutAll, Opening, Stream, Handle;
    var cl := s.clients[c];
    if Spent(cl) {
      acts := [];
    } else {
      StreamLong(cl.phase.session, cl.job);
      StreamShape(cl.phase.session, cl.job, cl.phase.taken);
      IgnoredIff(s.server, Stream(cl.phase.session, cl.job)[cl.phase.taken]);
      var t := Next(s, Take(c));
      assert t.server == s.server && t.clients == s.clients[c := cl.(phase := cl.phase.(taken := cl.phase.taken + 1))];
      var rest := AllDropped(t, c);
      acts := [Take(c)] + rest;
      assert acts[1..] == rest;
    }
  }

  /** Five callers that start together, of which the fifth goes on first: its program is never run
      and its session never given back. */
  lemma FifthSession(job: Job) returns (acts: seq<Act>)
    ensures Runs(Start(seq(5, _ => job)), acts)
    ensures var s := After(Start(seq(5, _ => job)), acts);
            Inv(s) && |s.clients| == 5 && Spent(s.clients[4]) && s.clients[4].phase.session == 4 && Used(s.server, 4)
  {
    hide Next, Enabled, Inv, Crowded, Stream;
    var jobs := seq(5, _ => job);
    FifthLost(job);
    var s := After(Start(jobs), Starts(0));
    StreamLong(4, job);
    var rest := AllDropped(s, 4);
    RunsConcat(Start(jobs), Starts(0), rest);
    acts := Starts(0) + rest;
    StartInv(jobs);
    RunInv(Start(jobs), acts);
  }
}
