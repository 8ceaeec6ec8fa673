/** Any number of callers and one daemon, in any interleaving of their messages. */
module SpawnRuns {
  import opened Options
  import opened Spawn

  /** Where a caller stands. It is `kept` when the daemon took its first message. */
  datatype Phase =
    | Fresh
    | Denied
    | Live(session: nat, taken: nat, kept: bool)
    | Done(launch: Launch, kept: bool)

  datatype Client = Client(job: Job, phase: Phase)

  datatype System = System(server: Server, clients: seq<Client>)

  datatype Act = Ask(client: nat) | Take(client: nat)

  predicate Enabled(s: System, a: Act) {
    && Sized(s.server)
    && a.client < |s.clients|
    && var p := s.clients[a.client].phase;
       match a
       case Ask(c) => p.Fresh?
       case Take(c) => p.Live? && p.taken < |Stream(p.session, s.clients[c].job)|
  }

  /** A session request, or the next message of a caller. */
  function Next(s: System, a: Act): System
    requires Enabled(s, a)
  {
    var cl := s.clients[a.client];
    match a
    case Ask(c) =>
      var (server, session) := Open(s.server);
      System(server, s.clients[c := cl.(phase := if session == EMPTY then Denied else Live(session, 0, false))])
    case Take(c) =>
      var (server, reply) := Handle(s.server, Stream(cl.phase.session, cl.job)[cl.phase.taken]);
      System(server, s.clients[c := cl.(phase := Taken(cl.phase, reply))])
  }

  function Taken(p: Phase, reply: Reply): Phase
    requires p.Live?
  {
    var kept := if p.taken == 0 then !reply.Ignored? else p.kept;
    if reply.Ran? then Done(reply.launch, kept) else Live(p.session, p.taken + 1, kept)
  }

  function Start(jobs: seq<Job>): System {
    System(Server(seq(SESSIONS, _ => true), seq(MAX_CONCURRENT_SPAWNS, _ => Blank(EMPTY))),
           seq(|jobs|, i requires 0 <= i < |jobs| => Client(jobs[i], Fresh)))
  }

  // ----- the invariant -----

  /** What a live caller has put into its slot. */
  function Content(cl: Client): Slot
    requires cl.phase.Live? && cl.phase.taken <= |Opening(cl.phase.session, cl.job)|
  {
    PutAll(Blank(EMPTY), Opening(cl.phase.session, cl.job)[..cl.phase.taken])
  }

  ghost predicate Held(slots: seq<Slot>, slot: Slot) {
    exists i :: 0 <= i < |slots| && slots[i] == slot
  }

  /** A caller and what the daemon holds for its session. */
  ghost predicate Kept(server: Server, cl: Client)
    requires Sized(server)
  {
    match cl.phase
    case Fresh => true
    case Denied => true
    case Done(launch, kept) => kept <==> launch == Wanted(cl.job)
    case Live(session, taken, kept) =>
      && Used(server, session)
      && (taken == 0 ==> forall i :: 0 <= i < |server.slots| ==> server.slots[i].session != session)
      && (taken > 0 && kept ==> taken <= |Opening(session, cl.job)| && Held(server.slots, Content(cl)))
      && (taken > 0 && !kept ==> forall i :: 0 <= i < |server.slots| && server.slots[i].session == session ==>
         server.slots[i].exec == None)
  }

  ghost predicate Owned(clients: seq<Client>, session: nat) {
    exists c :: 0 <= c < |clients| && clients[c].phase.Live? && clients[c].phase.session == session
  }

  predicate Distinct(clients: seq<Client>, c: nat, d: nat)
    requires c < |clients| && d < |clients|
  {
    clients[c].phase.Live? && clients[d].phase.Live? && c != d ==> clients[c].phase.session != clients[d].phase.session
  }

  ghost predicate Injective(slots: seq<Slot>) {
    forall i, j :: 0 <= i < j < |slots| && slots[i].session != EMPTY ==> slots[i].session != slots[j].session
  }

  ghost predicate Inv(s: System) {
    && Sized(s.server)
    && (forall c :: 0 <= c < |s.clients| ==> Kept(s.server, s.clients[c]))
    && (forall c, d :: 0 <= c < |s.clients| && 0 <= d < |s.clients| ==> Distinct(s.clients, c, d))
    && (forall n :: 0 <= n < SESSIONS && !s.server.free[n] ==> Owned(s.clients, n))
    && (forall i :: 0 <= i < |s.server.slots| && s.server.slots[i].session != EMPTY ==>
       Used(s.server, s.server.slots[i].session))
    && Injective(s.server.slots)
  }

  lemma StartInv(jobs: seq<Job>)
    ensures Inv(Start(jobs))
  {
  }

  // ----- asking for a session -----

  lemma AskInv(s: System, c: nat)
    requires Inv(s) && Enabled(s, Ask(c))
    ensures Inv(Next(s, Ask(c)))
  {
    hide PutAll, Stream, Opening, Kept;
    var t, session := Next(s, Ask(c)), Open(s.server).1;
    forall d | 0 <= d < |t.clients| ensures Kept(t.server, t.clients[d]) {
      assert Kept(s.server, s.clients[d]);
      AskKept(s, c, d);
    }
    forall n | 0 <= n < SESSIONS && !t.server.free[n] ensures Owned(t.clients, n) {
      if n == session {
        assert t.clients[c].phase.Live?;
      } else {
        assert !s.server.free[n];
        var d :| 0 <= d < |s.clients| && s.clients[d].phase.Live? && s.clients[d].phase.session == n;
        assert t.clients[d].phase.Live?;
      }
    }
    forall d, e | 0 <= d < |t.clients| && 0 <= e < |t.clients| ensures Distinct(t.clients, d, e) {
      assert Distinct(s.clients, d, e) && Kept(s.server, s.clients[d]) && Kept(s.server, s.clients[e]);
      if s.clients[d].phase.Live? {
        UsedLive(s.server, s.clients[d]);
      }
      if s.clients[e].phase.Live? {
        UsedLive(s.server, s.clients[e]);
      }
    }
  }

  /** A session that is free has no slot and no caller. */
  lemma AskKept(s: System, c: nat, d: nat)
    requires Inv(s) && Enabled(s, Ask(c)) && d < |s.clients|
    ensures Sized(Next(s, Ask(c)).server) && Kept(Next(s, Ask(c)).server, Next(s, Ask(c)).clients[d])
  {
    hide PutAll, Stream, Opening, Injective;
    assert Kept(s.server, s.clients[d]);
  }

  // ----- taking a message -----

  /** A change that touches one session only, in one slot. */
  ghost predicate Local(s: Server, t: Server, x: nat, p: nat) {
    && Sized(s)
    && Sized(t)
    && p < |s.slots|
    && x < SESSIONS
    && t.slots == s.slots[p := t.slots[p]]
    && (s.slots[p].session == x || s.slots[p].session == EMPTY)
    && (t.slots[p].session == x || t.slots[p].session == EMPTY)
    && t.free == s.free[x := t.free[x]]
  }

  lemma HandleLocal(s: Server, m: Msg)
    requires Sized(s) && Handle(s, m).1 != Ignored
    ensures Local(s, Handle(s, m).0, m.session, Place(s.slots, m.session)) && Used(s, m.session)
  {
    hide Fill, Mine, LastFree;
    KeepsSession(s.slots[Place(s.slots, m.session)], m);
  }

  /** The others do not notice. */
  lemma OthersKept(s: Server, t: Server, x: nat, p: nat, cl: Client)
    requires Local(s, t, x, p) && Kept(s, cl) && (cl.phase.Live? ==> cl.phase.session != x)
    ensures Kept(t, cl)
  {
    hide PutAll, Stream, Opening;
    if cl.phase.Live? && cl.phase.taken > 0 && cl.phase.kept {
      ContentSession(cl);
      var i :| 0 <= i < |s.slots| && s.slots[i] == Content(cl);
      assert t.slots[i] == s.slots[i];
    }
  }

  lemma ContentSession(cl: Client)
    requires cl.phase.Live? && 0 < cl.phase.taken <= |Opening(cl.phase.session, cl.job)|
    ensures Content(cl).session == cl.phase.session
  {
    var ms := Opening(cl.phase.session, cl.job)[..cl.phase.taken];
    KeepsSession(PutAll(Blank(EMPTY), ms[..|ms| - 1]), ms[|ms| - 1]);
  }

  /** The last message of a stream runs it, and no other. */
  lemma StreamShape(session: nat, job: Job, k: nat)
    requires k <= |Opening(session, job)|
    ensures |Stream(session, job)| == |Opening(session, job)| + 1 > 1
    ensures var m := Stream(session, job)[k];
            && m.session == session
            && (m.exec <==> k == |Opening(session, job)|)
            && (m.kind.Exe? <==> k == 0)
            && (k == 0 ==> m.reset)
  {
  }

  lemma StreamLong(session: nat, job: Job)
    ensures |Stream(session, job)| == |Opening(session, job)| + 1 > 1
  {
  }

  /** A slot after the first message does not depend on what was there. */
  lemma FirstPut(slot: Slot, session: nat, job: Job)
    ensures Put(slot, Stream(session, job)[0]) == PutAll(Blank(EMPTY), Opening(session, job)[..1])
  {
    hide PutAll;
    assert Opening(session, job)[..1] == [Stream(session, job)[0]];
    PutFirst(Blank(EMPTY), Stream(session, job)[0]);
  }

  /** The slot of a kept caller after one more message. */
  lemma NextPut(cl: Client)
    requires cl.phase.Live? && cl.phase.taken < |Opening(cl.phase.session, cl.job)|
    ensures var p := cl.phase;
            Put(Content(cl), Stream(p.session, cl.job)[p.taken]) == Content(cl.(phase := p.(taken := p.taken + 1)))
  {
    hide Put;
    var ms := Opening(cl.phase.session, cl.job);
    var k := cl.phase.taken;
    assert ms[..k + 1][..k] == ms[..k] && ms[..k + 1][k] == Stream(cl.phase.session, cl.job)[k];
    assert PutAll(Blank(EMPTY), ms[..k + 1]) == Put(PutAll(Blank(EMPTY), ms[..k + 1][..k]), ms[..k + 1][k]);
  }

  /** A kept caller finds its slot, and only that one. */
  lemma PlaceHeld(slots: seq<Slot>, slot: Slot)
    requires Held(slots, slot) && Injective(slots) && slot.session != EMPTY
    ensures Place(slots, slot.session) < |slots| && slots[Place(slots, slot.session)] == slot
  {
    hide LastFree;
    var i :| 0 <= i < |slots| && slots[i] == slot;
    var j := Mine(slots, slot.session, 0);
    assert j <= i;
  }

  /** The caller itself after its first message. */
  lemma FirstKept(server: Server, cl: Client)
    requires Sized(server) && Kept(server, cl) && cl.phase.Live? && cl.phase.taken == 0
    ensures var (t, reply) := Handle(server, Stream(cl.phase.session, cl.job)[0]);
            !reply.Ran? && Kept(t, cl.(phase := Taken(cl.phase, reply)))
  {
    hide PutAll, LastFree, Mine, Fill, Put, Stream, Opening;
    var x := cl.phase.session;
    StreamShape(x, cl.job, 0);
    var m := Stream(x, cl.job)[0];
    var (t, reply) := Handle(server, m);
    var n := cl.(phase := Taken(cl.phase, reply));
    if reply != Ignored {
      var p := Place(server.slots, x);
      FirstPut(server.slots[p], x, cl.job);
      assert t.slots[p] == Content(n);
    }
  }

  /** A kept caller after another message: its slot grows, and in the end it is run. */
  lemma MoreKept(server: Server, cl: Client)
    requires Sized(server) && Injective(server.slots) && Kept(server, cl)
    requires cl.phase.Live? && cl.phase.taken > 0 && cl.phase.kept
    ensures cl.phase.taken <= |Opening(cl.phase.session, cl.job)|
    ensures var (t, reply) := Handle(server, Stream(cl.phase.session, cl.job)[cl.phase.taken]);
            !reply.Ignored? && Kept(t, cl.(phase := Taken(cl.phase, reply)))
  {
    hide PutAll, LastFree, Mine, Fill, Put, Stream, Opening, Run;
    var x, k := cl.phase.session, cl.phase.taken;
    StreamShape(x, cl.job, k);
    var m := Stream(x, cl.job)[k];
    var (t, reply) := Handle(server, m);
    var n := cl.(phase := Taken(cl.phase, reply));
    ContentSession(cl);
    PlaceHeld(server.slots, Content(cl));
    var p := Place(server.slots, x);
    if k < |Opening(x, cl.job)| {
      NextPut(cl);
      assert t.slots[p] == Content(n);
    } else {
      WholeContent(cl);
    }
  }

  lemma WholeContent(cl: Client)
    requires cl.phase.Live? && cl.phase.taken == |Opening(cl.phase.session, cl.job)|
    ensures Run(Put(Content(cl), Stream(cl.phase.session, cl.job)[cl.phase.taken])) == Wanted(cl.job)
  {
    hide PutAll, Put;
    var ms := Opening(cl.phase.session, cl.job);
    assert ms[..|ms|] == ms;
    StreamFills(Blank(EMPTY), cl.phase.session, cl.job);
  }

  /** A caller that was not kept never gets its executable into a slot. */
  lemma LostKept(server: Server, cl: Client)
    requires Sized(server) && Injective(server.slots) && Kept(server, cl)
    requires cl.phase.Live? && 0 < cl.phase.taken < |Stream(cl.phase.session, cl.job)| && !cl.phase.kept
    ensures var (t, reply) := Handle(server, Stream(cl.phase.session, cl.job)[cl.phase.taken]);
            Kept(t, cl.(phase := Taken(cl.phase, reply)))
  {
    hide PutAll, LastFree, Stream, Opening;
    var x, k := cl.phase.session, cl.phase.taken;
    StreamLong(x, cl.job);
    StreamShape(x, cl.job, k);
    var m := Stream(x, cl.job)[k];
    var (t, reply) := Handle(server, m);
    if reply != Ignored {
      var p := Place(server.slots, x);
      assert Put(server.slots[p], m).exec == None;
      if reply.Ran? {
        assert reply.launch.exec == None && Wanted(cl.job).exec == Some(cl.job.filename);
      } else {
        assert forall i :: 0 <= i < |t.slots| && i != p ==> t.slots[i] == server.slots[i];
      }
    }
  }

  lemma SelfKept(server: Server, cl: Client)
    requires Sized(server) && Injective(server.slots) && Kept(server, cl)
    requires cl.phase.Live? && cl.phase.taken < |Stream(cl.phase.session, cl.job)|
    ensures var (t, reply) := Handle(server, Stream(cl.phase.session, cl.job)[cl.phase.taken]);
            Sized(t) && Kept(t, cl.(phase := Taken(cl.phase, reply)))
  {
    hide Handle, Kept, Stream, Taken;
    if cl.phase.taken == 0 {
      FirstKept(server, cl);
    } else if cl.phase.kept {
      MoreKept(server, cl);
    } else {
      LostKept(server, cl);
    }
    HandleSized(server, Stream(cl.phase.session, cl.job)[cl.phase.taken]);
  }

  lemma HandleSized(s: Server, m: Msg)
    requires Sized(s)
    ensures Sized(Handle(s, m).0) && (Handle(s, m).1 == Ignored ==> Handle(s, m).0 == s)
    ensures Handle(s, m).1 != Ignored ==>
              (Handle(s, m).1.Ran? <==> m.exec) && Used(s, m.session) && (Used(Handle(s, m).0, m.session) <==> !m.exec)
  {
  }

  /** The slots stay injective, and only used sessions have one. */
  lemma SlotsKept(s: Server, m: Msg)
    requires Sized(s) && Injective(s.slots)
    requires forall i :: 0 <= i < |s.slots| && s.slots[i].session != EMPTY ==> Used(s, s.slots[i].session)
    ensures var t := Handle(s, m).0;
            && Injective(t.slots)
            && forall i :: 0 <= i < |t.slots| && t.slots[i].session != EMPTY ==> Used(t, t.slots[i].session)
  {
    hide Fill, LastFree;
    var (t, reply) := Handle(s, m);
    if reply != Ignored {
      var p := Place(s.slots, m.session);
      KeepsSession(s.slots[p], m);
      if Mine(s.slots, m.session, 0) < |s.slots| {
        assert s.slots[p].session == m.session;
      }
      assert forall i :: 0 <= i < |s.slots| && i != p ==> t.slots[i] == s.slots[i] && s.slots[i].session != m.session;
    }
  }

  lemma TakeInv(s: System, c: nat)
    requires Inv(s) && Enabled(s, Take(c))
    ensures Inv(Next(s, Take(c)))
  {
    hide Handle, Kept, Stream, Injective, Place;
    var t, cl := Next(s, Take(c)), s.clients[c];
    var m := Stream(cl.phase.session, cl.job)[cl.phase.taken];
    var reply := Handle(s.server, m).1;
    StreamLong(cl.phase.session, cl.job);
    StreamShape(cl.phase.session, cl.job, cl.phase.taken);
    HandleSized(s.server, m);
    SelfKept(s.server, cl);
    SlotsKept(s.server, m);
    forall d | 0 <= d < |t.clients| ensures Kept(t.server, t.clients[d]) {
      if d != c && reply != Ignored {
        assert Distinct(s.clients, c, d) && Kept(s.server, s.clients[d]);
        HandleLocal(s.server, m);
        OthersKept(s.server, t.server, cl.phase.session, Place(s.server.slots, m.session), s.clients[d]);
      }
    }
    forall d, e | 0 <= d < |t.clients| && 0 <= e < |t.clients| ensures Distinct(t.clients, d, e) {
      assert Distinct(s.clients, d, e);
    }
    TakeOwned(s, c);
  }

  lemma TakeOwned(s: System, c: nat)
    requires Inv(s) && Enabled(s, Take(c))
    ensures var t := Next(s, Take(c));
            Sized(t.server) && forall n :: 0 <= n < SESSIONS && !t.server.free[n] ==> Owned(t.clients, n)
  {
    hide Handle, Kept, Stream, Injective, Place;
    var t, cl := Next(s, Take(c)), s.clients[c];
    var m := Stream(cl.phase.session, cl.job)[cl.phase.taken];
    StreamLong(cl.phase.session, cl.job);
    StreamShape(cl.phase.session, cl.job, cl.phase.taken);
    HandleSized(s.server, m);
    forall n | 0 <= n < SESSIONS && !t.server.free[n] ensures Owned(t.clients, n) {
      if Handle(s.server, m).1 != Ignored {
        HandleLocal(s.server, m);
      }
      if n == cl.phase.session {
        assert t.clients[c].phase.Live? by { assert Kept(s.server, cl); UsedLive(s.server, cl); }
      } else {
        var d :| 0 <= d < |s.clients| && s.clients[d].phase.Live? && s.clients[d].phase.session == n;
        assert t.clients[d] == s.clients[d];
      }
    }
  }

  lemma UsedLive(server: Server, cl: Client)
    requires Sized(server) && Kept(server, cl) && cl.phase.Live?
    ensures Used(server, cl.phase.session)
  {
  }
}
