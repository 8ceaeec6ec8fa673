/** How the master of axiom-run folds the exit statuses of the nodes into one. */
module ExitStatus {

  // The exit modes in the flags word; all others keep the first status.
  const GREATER: nat := 0
  const LESSER: nat := 1
  const LAST: nat := 2
  const NOFAIL: nat := 4
  const FIRST_ABS: nat := 5

  function Mode(flags: nat): nat {
    flags / 4 % 8
  }

  /** A wait status of a process that exited, rather than being killed by a signal. */
  predicate Exited(status: nat) {
    status % 128 == 0
  }

  function Code(status: nat): nat {
    status / 256 % 256
  }

  /** The mode is in the three bits above the two flags of the output. */
  lemma ModeBits(low: nat, mode: nat, high: nat)
    requires low < 4 && mode < 8
    ensures Mode(low + 4 * mode + 32 * high) == mode
  {
    assert (low + 4 * mode + 32 * high) / 4 == mode + 8 * high;
  }

  /** The words of the header, with any other flags beside them. */
  lemma ModeWords(low: nat, high: nat)
    requires low < 4
    ensures var other := low + 32 * high;
            && Mode(other + 0x00) == GREATER && Mode(other + 0x04) == LESSER && Mode(other + 0x08) == LAST
            && Mode(other + 0x10) == NOFAIL && Mode(other + 0x14) == FIRST_ABS
            && Mode(other + 0x0c) !in {GREATER, LESSER, LAST, NOFAIL, FIRST_ABS}
  {
    hide Mode;
    ModeBits(low, 0, high);
    ModeBits(low, 1, high);
    ModeBits(low, 2, high);
    ModeBits(low, 3, high);
    ModeBits(low, 4, high);
    ModeBits(low, 5, high);
  }

  /** A wait status: the signal in seven bits, the core bit, then the exit code in eight. */
  lemma StatusBits(signal: nat, core: nat, code: nat, high: nat)
    requires signal < 128 && core < 2 && code < 256
    ensures var status := signal + 128 * core + 256 * code + 65536 * high;
            (Exited(status) <==> signal == 0) && Code(status) == code
  {
    var status := signal + 128 * core + 256 * code + 65536 * high;
    assert status == signal + 128 * (core + 2 * code + 512 * high);
    assert status / 256 == code + 256 * high;
  }

  /** The k-th status is the first that was signalled. */
  ghost predicate FirstSignalled(ss: seq<nat>, k: nat) {
    k < |ss| && !Exited(ss[k]) && forall i :: 0 <= i < k ==> Exited(ss[i])
  }

  /** The k-th status has the greatest exit code, and is the first with that code. */
  ghost predicate FirstGreatest(ss: seq<nat>, k: nat) {
    && k < |ss|
    && (forall i :: 0 <= i < |ss| ==> Code(ss[i]) <= Code(ss[k]))
    && (forall i :: 0 <= i < k ==> Code(ss[i]) < Code(ss[k]))
  }

  ghost predicate FirstLeast(ss: seq<nat>, k: nat) {
    && k < |ss|
    && (forall i :: 0 <= i < |ss| ==> Code(ss[i]) >= Code(ss[k]))
    && (forall i :: 0 <= i < k ==> Code(ss[i]) > Code(ss[k]))
  }

  /** The status of the k-th exit is what a mode asks for. Without failures the status is zero. */
  ghost predicate Chosen(mode: nat, ss: seq<nat>, k: nat) {
    && k < |ss|
    && (mode == FIRST_ABS ==> k == 0)
    && (mode != FIRST_ABS && (exists i :: 0 <= i < |ss| && !Exited(ss[i])) ==> FirstSignalled(ss, k))
    && (mode != FIRST_ABS && (forall i :: 0 <= i < |ss| ==> Exited(ss[i])) ==>
          if mode == GREATER then FirstGreatest(ss, k)
          else if mode == LESSER then FirstLeast(ss, k)
          else if mode == LAST then k == |ss| - 1
          else k == 0)
  }

  ghost predicate Outcome(mode: nat, ss: seq<nat>, status: nat) {
    if mode == NOFAIL then status == 0 else exists k: nat :: k < |ss| && Chosen(mode, ss, k) && status == ss[k]
  }

  /** One exit status after another that was kept: the one to keep. */
  function Keep(mode: nat, kept: nat, status: nat): nat {
    if Exited(status) then
      if Exited(kept) then
        if mode == LAST then status
        else if mode == GREATER && Code(status) > Code(kept) then status
        else if mode == LESSER && Code(status) < Code(kept) then status
        else kept
      else kept
    else if Exited(kept) && mode != FIRST_ABS then status
    else kept
  }

  lemma ChooseKept(mode: nat, ss: seq<nat>, k: nat, status: nat)
    requires Chosen(mode, ss, k) && Keep(mode, ss[k], status) == ss[k] && (mode == LAST ==> !Exited(ss[k]))
    ensures Chosen(mode, ss + [status], k)
  {
    var ts := ss + [status];
    if mode != FIRST_ABS && !Exited(ss[k]) {
      assert exists i :: 0 <= i < |ts| && !Exited(ts[i]) by { assert ts[k] == ss[k]; }
      assert FirstSignalled(ts, k);
    } else if mode != FIRST_ABS {
      assert forall i :: 0 <= i < |ss| ==> Exited(ss[i]);
    }
  }

  lemma ChooseNew(mode: nat, ss: seq<nat>, k: nat, status: nat)
    requires Chosen(mode, ss, k) && Keep(mode, ss[k], status) == status
             && ((mode == LAST && Exited(ss[k])) || status != ss[k])
    ensures Chosen(mode, ss + [status], |ss|)
  {
    var ts := ss + [status];
    assert mode != FIRST_ABS && Exited(ss[k]);
    assert forall i :: 0 <= i < |ss| ==> Exited(ss[i]);
    assert ts[|ss|] == status;
    if !Exited(status) {
      assert FirstSignalled(ts, |ss|);
    } else {
      assert forall i :: 0 <= i < |ts| ==> Exited(ts[i]);
    }
  }

  lemma ChooseOne(mode: nat, status: nat)
    ensures Chosen(mode, [status], 0)
  {
    var ss := [status];
    if !Exited(status) {
      assert FirstSignalled(ss, 0);
    } else {
      assert FirstGreatest(ss, 0) && FirstLeast(ss, 0);
    }
  }

  /** One more exit status, folded in as the master does. */
  lemma OutcomeNext(mode: nat, ss: seq<nat>, kept: nat, status: nat)
    requires Outcome(mode, ss, kept)
    ensures Outcome(mode, ss + [status], if mode == NOFAIL then 0 else Keep(mode, kept, status))
  {
    hide Chosen, Keep;
    if mode != NOFAIL {
      var k: nat :| k < |ss| && Chosen(mode, ss, k) && kept == ss[k];
      var ts := ss + [status];
      assert ts[k] == kept && ts[|ss|] == status;
      if Keep(mode, kept, status) == kept && (mode == LAST ==> !Exited(kept)) {
        ChooseKept(mode, ss, k, status);
      } else {
        KeepsNew(mode, kept, status);
        ChooseNew(mode, ss, k, status);
      }
    }
  }

  lemma KeepsNew(mode: nat, kept: nat, status: nat)
    requires Keep(mode, kept, status) != kept || (mode == LAST && Exited(kept))
    ensures Keep(mode, kept, status) == status && ((mode == LAST && Exited(kept)) || status != kept)
  {
  }

  /** The outcome of a list of exits is unique, so the mode alone decides it. */
  lemma OutcomeUnique(mode: nat, ss: seq<nat>, x: nat, y: nat)
    requires Outcome(mode, ss, x) && Outcome(mode, ss, y)
    ensures x == y
  {
    hide Chosen;
    if mode != NOFAIL {
      var i: nat :| i < |ss| && Chosen(mode, ss, i) && x == ss[i];
      var j: nat :| j < |ss| && Chosen(mode, ss, j) && y == ss[j];
      ChosenUnique(mode, ss, i, j);
    }
  }

  lemma ChosenUnique(mode: nat, ss: seq<nat>, i: nat, j: nat)
    requires Chosen(mode, ss, i) && Chosen(mode, ss, j)
    ensures i == j
  {
    hide Code, Exited;
    if mode == FIRST_ABS {
    } else if exists s :: 0 <= s < |ss| && !Exited(ss[s]) {
      assert FirstSignalled(ss, i) && FirstSignalled(ss, j);
    } else if mode == GREATER {
      assert FirstGreatest(ss, i) && FirstGreatest(ss, j);
    } else if mode == LESSER {
      assert FirstLeast(ss, i) && FirstLeast(ss, j);
    }
  }

  /** The master's treatment of the exit messages. With the exit service on, the first of them ends
      the whole application; without it the fold starts from a status of zero. */
  method FoldExits(flags: nat, exitService: bool, nnodes: nat, messages: seq<nat>)
    returns (status: nat, kills: seq<nat>, used: nat)
    requires 0 < nnodes <= |messages|
    ensures used == nnodes
    ensures kills == if exitService then [messages[0]] else []
    ensures exitService ==> Outcome(Mode(flags), messages[..nnodes], status)
    ensures !exitService ==> Outcome(Mode(flags), [0] + messages[..nnodes], status)
  {
    hide Outcome, Picked;
    var mode, service, counter: nat := Mode(flags), exitService, nnodes;
    status, kills, used := 0, [], 0;
    ghost var seed := if exitService then [] else [0];
    BeginFold(mode, 0);
    assert [0] + messages[..0] == [0];
    while counter > 0
      invariant used + counter == nnodes
      invariant service <==> exitService && used == 0
      invariant kills == if exitService && used > 0 then [messages[0]] else []
      invariant !service ==> Outcome(mode, seed + messages[..used], status)
      decreases counter
    {
      var received := messages[used];
      assert messages[..used + 1] == messages[..used] + [received];
      if service {
        status, kills, service := received, kills + [received], false;
        BeginFold(mode, received);
        assert seed + messages[..used + 1] == [received];
      } else {
        var next := KeepStatus(mode, status, received);
        OutcomeFold(mode, seed + messages[..used], status, received, next);
        assert seed + messages[..used + 1] == seed + messages[..used] + [received];
        status := next;
      }
      if mode == NOFAIL {
        status := 0;
      }
      used, counter := used + 1, counter - 1;
    }
    assert [] + messages[..nnodes] == messages[..nnodes];
  }

  lemma BeginFold(mode: nat, status: nat)
    ensures Outcome(mode, [status], if mode == NOFAIL then 0 else status)
  {
    hide Chosen;
    ChooseOne(mode, status);
    assert [status][0] == status;
  }

  /** The status of one of the exits, as the mode chooses it. */
  ghost predicate Picked(mode: nat, ss: seq<nat>, status: nat) {
    exists k: nat :: k < |ss| && Chosen(mode, ss, k) && status == ss[k]
  }

  lemma KeepPicked(mode: nat, kept: nat, received: nat)
    ensures Picked(mode, [kept, received], Keep(mode, kept, received))
  {
    hide Chosen, Keep;
    ChooseOne(mode, kept);
    assert [kept] + [received] == [kept, received];
    if Keep(mode, kept, received) == kept && (mode == LAST ==> !Exited(kept)) {
      ChooseKept(mode, [kept], 0, received);
      assert [kept, received][0] == kept;
    } else {
      KeepsNew(mode, kept, received);
      ChooseNew(mode, [kept], 0, received);
      assert [kept, received][1] == received;
    }
  }

  /** Folding in what is picked of the kept status and the next one is choosing from all of them. */
  lemma OutcomeFold(mode: nat, ss: seq<nat>, kept: nat, received: nat, status: nat)
    requires Outcome(mode, ss, kept) && Picked(mode, [kept, received], status)
    ensures Outcome(mode, ss + [received], if mode == NOFAIL then 0 else status)
  {
    hide Chosen, Keep;
    KeepPicked(mode, kept, received);
    var pair := [kept, received];
    var i: nat :| i < |pair| && Chosen(mode, pair, i) && status == pair[i];
    var j: nat :| j < |pair| && Chosen(mode, pair, j) && Keep(mode, kept, received) == pair[j];
    ChosenUnique(mode, pair, i, j);
    OutcomeNext(mode, ss, kept, received);
  }

  /** The nested tests of the receiver loop: of two exits they keep the one that the mode chooses. */
  method KeepStatus(mode: nat, kept: nat, received: nat) returns (status: nat)
    ensures Picked(mode, [kept, received], status)
  {
    hide Picked;
    KeepPicked(mode, kept, received);
    status := kept;
    if Exited(received) {
      if Exited(kept) {
        if mode == LAST {
          status := received;
        } else if mode == GREATER {
          if Code(received) > Code(kept) {
            status := received;
          }
        } else if mode == LESSER {
          if Code(received) < Code(kept) {
            status := received;
          }
        }
      }
    } else if Exited(kept) {
      if mode != FIRST_ABS {
        status := received;
      }
    }
  }
}
