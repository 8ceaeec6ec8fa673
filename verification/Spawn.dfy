/** Remote execution: the sessions and the spawn slots of axiom-init, and the stream of a caller. */
module Spawn {
  import opened Options

  const SESSIONS: nat := 32
  const MAX_CONCURRENT_SPAWNS: nat := 4

  /** Stands for no session; any number that is not one would do. */
  const EMPTY: nat := 255

  datatype Kind = Exe | Cwd | Arg | Env | Unknown

  datatype Msg = Msg(session: nat, kind: Kind, reset: bool, exec: bool, text: string)

  datatype Slot = Slot(session: nat, exec: Option<string>, cwd: Option<string>, args: seq<string>, env: seq<string>)

  datatype Launch = Launch(exec: Option<string>, cwd: Option<string>, args: seq<string>, env: seq<string>)

  /** What a caller wants to run. */
  datatype Job = Job(filename: string, argv: seq<string>, envp: seq<string>, cwd: string)

  datatype Server = Server(free: seq<bool>, slots: seq<Slot>)

  /** `Aborted` when the daemon runs a program and then stops itself at an assertion. */
  datatype Reply = Ignored | Stored | Ran(launch: Launch) | Aborted(launch: Launch)

  predicate Sized(s: Server) {
    |s.free| == SESSIONS && |s.slots| == MAX_CONCURRENT_SPAWNS
  }

  function Blank(session: nat): Slot {
    Slot(session, None, None, [], [])
  }

  // ----- sessions -----

  /** The lowest free session from k on, or the end. */
  function Lowest(free: seq<bool>, k: nat): (i: nat)
    requires k <= |free|
    ensures k <= i <= |free| && (i < |free| ==> free[i]) && forall j :: k <= j < i ==> !free[j]
    decreases |free| - k
  {
    if k == |free| || free[k] then k else Lowest(free, k + 1)
  }

  function Open(s: Server): (Server, nat)
    requires Sized(s)
  {
    var i := Lowest(s.free, 0);
    if i == SESSIONS then (s, EMPTY) else (s.(free := s.free[i := false]), i)
  }

  predicate Used(s: Server, session: nat)
    requires Sized(s)
  {
    session < SESSIONS && !s.free[session]
  }

  // ----- slots -----

  /** The first slot from k on that a session has, or the end. */
  function Mine(slots: seq<Slot>, session: nat, k: nat): (i: nat)
    requires k <= |slots|
    ensures k <= i <= |slots| && (i < |slots| ==> slots[i].session == session)
    ensures forall j :: k <= j < i ==> slots[j].session != session
    decreases |slots| - k
  {
    if k == |slots| || slots[k].session == session then k else Mine(slots, session, k + 1)
  }

  /** The last empty slot below k, or the end. */
  function LastFree(slots: seq<Slot>, k: nat): (i: nat)
    requires k <= |slots|
    ensures i < k || i == |slots|
    ensures i < |slots| ==> slots[i].session == EMPTY && forall j :: i < j < k ==> slots[j].session != EMPTY
    ensures i == |slots| ==> forall j :: 0 <= j < k ==> slots[j].session != EMPTY
  {
    if k == 0 then |slots| else if slots[k - 1].session == EMPTY then k - 1 else LastFree(slots, k - 1)
  }

  /** The slot that a message goes to, or the end when there is none. */
  function Place(slots: seq<Slot>, session: nat): (i: nat)
    ensures i <= |slots|
  {
    var i := Mine(slots, session, 0);
    if i < |slots| then i else LastFree(slots, |slots|)
  }

  function Fill(slot: Slot, m: Msg): Slot {
    match m.kind
    case Exe => slot.(exec := Some(m.text))
    case Cwd => slot.(cwd := Some(m.text))
    case Arg => slot.(args := slot.args + [m.text])
    case Env => slot.(env := slot.env + [m.text])
    case Unknown => slot
  }

  /** A slot after a message: a slot just taken, and one told to, is blank first. */
  function Put(slot: Slot, m: Msg): Slot {
    Fill(if slot.session == m.session && !m.reset then slot else Blank(m.session), m)
  }

  function Run(slot: Slot): Launch {
    Launch(slot.exec, slot.cwd, slot.args, slot.env)
  }

  /** What the daemon does with a spawn message. */
  function Handle(s: Server, m: Msg): (Server, Reply)
    requires Sized(s)
  {
    var i := Place(s.slots, m.session);
    if !Used(s, m.session) || i == |s.slots| then (s, Ignored)
    else
      var slot := Put(s.slots[i], m);
      if m.exec then (Server(s.free[m.session := true], s.slots[i := Blank(EMPTY)]), Ran(Run(slot)))
      else (s.(slots := s.slots[i := slot]), Stored)
  }

  // ----- the caller's stream -----

  function Texts(session: nat, kind: Kind, texts: seq<string>): (ms: seq<Msg>)
    ensures |ms| == |texts| && forall i :: 0 <= i < |ms| ==> ms[i] == Msg(session, kind, false, false, texts[i])
  {
    seq(|texts|, i requires 0 <= i < |texts| => Msg(session, kind, false, false, texts[i]))
  }

  /** The stream without the last message, which makes the daemon run it. */
  function Opening(session: nat, job: Job): seq<Msg> {
    [Msg(session, Exe, true, false, job.filename)] + Texts(session, Arg, job.argv) + Texts(session, Env, job.envp)
  }

  function Last(session: nat, job: Job): Msg {
    Msg(session, Cwd, false, true, job.cwd)
  }

  function Stream(session: nat, job: Job): seq<Msg> {
    Opening(session, job) + [Last(session, job)]
  }

  /** The messages that a caller sends once it has a session. */
  method SendJob(session: nat, job: Job) returns (sent: seq<Msg>)
    ensures sent == Stream(session, job)
  {
    sent := [Msg(session, Exe, true, false, job.filename)];
    for i := 0 to |job.argv|
      invariant sent == [Msg(session, Exe, true, false, job.filename)] + Texts(session, Arg, job.argv[..i])
    {
      sent := sent + [Msg(session, Arg, false, false, job.argv[i])];
    }
    assert job.argv[..|job.argv|] == job.argv;
    ghost var first := sent;
    for i := 0 to |job.envp|
      invariant sent == first + Texts(session, Env, job.envp[..i])
    {
      sent := sent + [Msg(session, Env, false, false, job.envp[i])];
    }
    assert job.envp[..|job.envp|] == job.envp;
    sent := sent + [Msg(session, Cwd, false, true, job.cwd)];
  }

  /** A slot after the first messages of a stream. */
  function PutAll(slot: Slot, ms: seq<Msg>): Slot
    decreases |ms|
  {
    if ms == [] then slot else Put(PutAll(slot, ms[..|ms| - 1]), ms[|ms| - 1])
  }

  function Wanted(job: Job): Launch {
    Launch(Some(job.filename), Some(job.cwd), job.argv, job.envp)
  }

  lemma PutText(slot: Slot, m: Msg)
    requires slot.session == m.session && !m.reset && (m.kind.Arg? || m.kind.Env?)
    ensures Put(slot, m) ==
            if m.kind.Arg? then slot.(args := slot.args + [m.text]) else slot.(env := slot.env + [m.text])
  {
  }

  lemma {:induction false} PutTexts(slot: Slot, first: seq<Msg>, session: nat, kind: Kind, texts: seq<string>)
    requires kind.Arg? || kind.Env?
    requires PutAll(slot, first).session == session
    ensures var was := PutAll(slot, first);
            PutAll(slot, first + Texts(session, kind, texts)) ==
              if kind.Arg? then was.(args := was.args + texts) else was.(env := was.env + texts)
    decreases |texts|
  {
    hide Put;
    if texts == [] {
      assert first + Texts(session, kind, texts) == first;
    } else {
      var n := |texts| - 1;
      var before, ms := first + Texts(session, kind, texts[..n]), first + Texts(session, kind, texts);
      PutTexts(slot, first, session, kind, texts[..n]);
      assert ms[..|ms| - 1] == before;
      assert texts == texts[..n] + [texts[n]];
      assert ms[|ms| - 1] == Msg(session, kind, false, false, texts[n]);
      assert PutAll(slot, ms) == Put(PutAll(slot, before), ms[|ms| - 1]);
      PutText(PutAll(slot, before), ms[|ms| - 1]);
    }
  }

  /** Whatever was in the slot, the whole stream leaves exactly the caller's job in it. */
  lemma StreamFills(slot: Slot, session: nat, job: Job)
    ensures PutAll(slot, Opening(session, job)) == Slot(session, Some(job.filename), None, job.argv, job.envp)
    ensures Run(Put(PutAll(slot, Opening(session, job)), Last(session, job))) == Wanted(job)
  {
    hide PutAll;
    var first := [Msg(session, Exe, true, false, job.filename)];
    var args := first + Texts(session, Arg, job.argv);
    PutFirst(slot, first[0]);
    PutTexts(slot, first, session, Arg, job.argv);
    assert [] + job.argv == job.argv && [] + job.envp == job.envp;
    PutTexts(slot, args, session, Env, job.envp);
    assert Opening(session, job) == args + Texts(session, Env, job.envp);
  }

  lemma PutFirst(slot: Slot, m: Msg)
    ensures PutAll(slot, [m]) == Put(slot, m)
  {
    assert [m][..0] == [];
  }

  // ----- any stream -----

  /** The messages from the last one on that resets the slot; all of them when none does. */
  function SinceReset(ms: seq<Msg>): seq<Msg> {
    if ms == [] then []
    else
      var n := |ms| - 1;
      if ms[n].reset then [ms[n]] else SinceReset(ms[..n]) + [ms[n]]
  }

  /** The texts of a kind, in order. */
  function TextsOf(ms: seq<Msg>, kind: Kind): seq<string> {
    if ms == [] then []
    else TextsOf(ms[..|ms| - 1], kind) + if ms[|ms| - 1].kind == kind then [ms[|ms| - 1].text] else []
  }

  /** The last text of a kind, if there is one. */
  function LastText(ms: seq<Msg>, kind: Kind): Option<string> {
    var ts := TextsOf(ms, kind);
    if ts == [] then None else Some(ts[|ts| - 1])
  }

  /** A slot that holds what a session has sent since the last reset. */
  function Holding(session: nat, since: seq<Msg>): Slot {
    Slot(session, LastText(since, Exe), LastText(since, Cwd), TextsOf(since, Arg), TextsOf(since, Env))
  }

  /** Whatever a session sends, in whatever order, its slot holds the last executable and the last
      directory and all arguments and variables, in order, that came since the last reset. */
  lemma {:induction false} AnyStream(slot: Slot, ms: seq<Msg>, session: nat)
    requires ms != [] && slot.session != session && forall i :: 0 <= i < |ms| ==> ms[i].session == session
    ensures PutAll(slot, ms) == Holding(session, SinceReset(ms))
    decreases |ms|
  {
    hide Put, Holding;
    var n := |ms| - 1;
    var m := ms[n];
    assert PutAll(slot, ms) == Put(PutAll(slot, ms[..n]), m);
    if n == 0 {
      assert ms[..0] == [];
      assert SinceReset(ms) == [m] && PutAll(slot, []) == slot;
      OneMessage(slot, m);
    } else {
      AnyStream(slot, ms[..n], session);
      if m.reset {
        OneMessage(PutAll(slot, ms[..n]), m);
      } else {
        MoreMessages(session, SinceReset(ms[..n]), m);
      }
    }
  }

  lemma TextsMore(ms: seq<Msg>, m: Msg, kind: Kind)
    ensures TextsOf(ms + [m], kind) == TextsOf(ms, kind) + if m.kind == kind then [m.text] else []
  {
    assert (ms + [m])[..|ms|] == ms;
  }

  lemma MoreMessages(session: nat, ms: seq<Msg>, m: Msg)
    requires m.session == session && !m.reset
    ensures Put(Holding(session, ms), m) == Holding(session, ms + [m])
  {
    hide TextsOf;
    TextsMore(ms, m, Exe);
    TextsMore(ms, m, Cwd);
    TextsMore(ms, m, Arg);
    TextsMore(ms, m, Env);
  }

  lemma OneText(m: Msg, kind: Kind)
    ensures TextsOf([m], kind) == if m.kind == kind then [m.text] else []
  {
    assert [m][..0] == [];
    assert TextsOf([], kind) == [];
  }

  lemma OneMessage(slot: Slot, m: Msg)
    requires m.reset || slot.session != m.session
    ensures Put(slot, m) == Holding(m.session, [m])
  {
    hide TextsOf;
    OneText(m, Exe);
    OneText(m, Cwd);
    OneText(m, Arg);
    OneText(m, Env);
  }

  // ----- the daemon -----

  /** The daemon of a node. The word of session bits is an array of them, true for a free session. */
  class Daemon {
    const sessions: array<bool>
    const info: array<Slot>

    ghost predicate Valid()
      reads this
    {
      sessions.Length == SESSIONS && info.Length == MAX_CONCURRENT_SPAWNS && (sessions as object) != info
    }

    ghost function View(): (s: Server)
      requires Valid()
      reads this, sessions, info
      ensures Sized(s)
    {
      Server(sessions[..], info[..])
    }

    constructor ()
      ensures Valid() && fresh(sessions) && fresh(info)
      ensures View() == Server(seq(SESSIONS, _ => true), seq(MAX_CONCURRENT_SPAWNS, _ => Blank(EMPTY)))
    {
      sessions := new bool[SESSIONS](_ => true);
      info := new Slot[MAX_CONCURRENT_SPAWNS](_ => Blank(EMPTY));
      new;
      assert sessions[..] == seq(SESSIONS, _ => true);
      assert info[..] == seq(MAX_CONCURRENT_SPAWNS, _ => Blank(EMPTY));
    }

    method NextSession() returns (session: nat)
      requires Valid()
      modifies sessions
      ensures (View(), session) == Open(old(View()))
    {
      session := EMPTY;
      var i := 0;
      while i < SESSIONS && !sessions[i]
        invariant 0 <= i <= SESSIONS && Lowest(sessions[..], i) == Lowest(sessions[..], 0)
      {
        i := i + 1;
      }
      if i < SESSIONS {
        sessions[i] := false;
        session := i;
      }
      assert info[..] == old(info[..]);
    }

    /** The search of the slots: the session's own, else the last one seen empty. */
    method FindSlot(session: nat) returns (idx: nat, idxFree: nat)
      requires Valid()
      ensures idx == Mine(info[..], session, 0)
      ensures idx == info.Length ==> idxFree == LastFree(info[..], info.Length)
    {
      idx, idxFree := 0, info.Length;
      while idx < info.Length
        invariant 0 <= idx <= info.Length && Mine(info[..], session, 0) == Mine(info[..], session, idx)
        invariant idxFree == LastFree(info[..], idx)
      {
        if info[idx].session == EMPTY {
          idxFree := idx;
        }
        if info[idx].session == session {
          break;
        }
        idx := idx + 1;
      }
    }

    /** Puts a message into a slot, which is taken for the session if it is not its own. */
    method Store(idx: nat, m: Msg)
      requires Valid() && idx < info.Length
      modifies info
      ensures info[..] == old(info[..])[idx := Put(old(info[idx]), m)]
    {
      var reset := m.reset;
      if info[idx].session != m.session {
        info[idx] := info[idx].(session := m.session);
        reset := true;
      }
      if reset {
        info[idx] := Blank(info[idx].session);
      }
      match m.kind {
        case Exe => info[idx] := info[idx].(exec := Some(m.text));
        case Cwd => info[idx] := info[idx].(cwd := Some(m.text));
        case Arg => info[idx] := info[idx].(args := info[idx].args + [m.text]);
        case Env => info[idx] := info[idx].(env := info[idx].env + [m.text]);
        case Unknown =>
      }
    }

    /** A spawn message. For session number 32 the test shifts by the width of the word, so that its
        answer, `wide`, is not the daemon's to decide; a daemon that takes the number for a session in
        use serves it like any other, but stops when it is to give it back. */
    method Receive(m: Msg, wide: bool) returns (reply: Reply)
      requires Valid()
      modifies sessions, info
      ensures m.session != SESSIONS || !wide ==> (View(), reply) == Handle(old(View()), m)
      ensures m.session == SESSIONS && wide ==> HandledWide(old(View()), m, View(), reply)
    {
      hide Put, Mine, LastFree;
      reply := Ignored;
      if m.session > SESSIONS || (if m.session == SESSIONS then !wide else sessions[m.session]) {
        return;
      }
      var idx, idxFree := FindSlot(m.session);
      if idx >= info.Length {
        if idxFree == info.Length {
          return;
        }
        idx := idxFree;
      }
      Store(idx, m);
      assert sessions[..] == old(sessions[..]);
      reply := Stored;
      if m.exec {
        reply := Ran(Run(info[idx]));
        KeepsSession(old(info[idx]), m);
        if info[idx].session >= SESSIONS {
          return Aborted(Run(info[idx]));
        }
        sessions[info[idx].session] := true;
        info[idx] := Blank(EMPTY);
        assert sessions[..] == old(sessions[..])[m.session := true];
        assert info[..] == old(info[..])[idx := Blank(EMPTY)];
      }
    }
  }

  /** What becomes of a message for session 32 that the daemon takes for a session in use. */
  ghost predicate HandledWide(s: Server, m: Msg, t: Server, reply: Reply) {
    var i := Place(s.slots, m.session);
    && t.free == s.free
    && if i == |s.slots| then t.slots == s.slots && reply == Ignored
       else
         && t.slots == s.slots[i := Put(s.slots[i], m)]
         && reply == if m.exec then Aborted(Run(Put(s.slots[i], m))) else Stored
  }

  lemma KeepsSession(slot: Slot, m: Msg)
    ensures Put(slot, m).session == m.session
  {
  }
}
