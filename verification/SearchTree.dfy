/** The tree the search grows: parents, and the interval of numbers below each board. */
module SearchTree {
  import opened Networks
  import opened DepthFirst

  function Parent(cfg: Config, d: Search, b: nat): nat
    requires b in d.up && Port(b, d.up[b]) in cfg.net.wire
  {
    cfg.net.wire[Port(b, d.up[b])].board
  }

  /** b has a parent that was numbered before it and whose interval holds it, and every board numbered in between had
      finished, with its whole interval, before b got its number. */
  ghost predicate Child(cfg: Config, d: Search, b: nat) {
    && b in d.pos && b in d.up && Port(b, d.up[b]) in cfg.net.wire
    && var p := Parent(cfg, d, b);
       p in d.pos && d.pos[p] < d.pos[b] && (p in d.last ==> d.pos[b] <= d.last[p])
       && forall y :: y in d.pos && d.pos[p] < d.pos[y] < d.pos[b] ==> y in d.last && d.last[y] < d.pos[b]
  }

  /** The interval of a finished board holds no unfinished board and every interval it meets. */
  ghost predicate Enclosed(d: Search, a: nat, b: nat) {
    && a in d.last && a in d.pos && b in d.pos
    && (b !in d.last ==> d.pos[b] < d.pos[a] || d.last[a] < d.pos[b])
    && (b in d.last && d.pos[a] <= d.pos[b] <= d.last[a] ==> d.last[b] <= d.last[a])
  }

  ghost predicate Tree(cfg: Config, d: Search) {
    && cfg.master !in d.up
    && (forall b :: b in d.pos && b != cfg.master ==> Child(cfg, d, b))
    && (forall a, b :: a in d.last && b in d.pos ==> Enclosed(d, a, b))
  }

  lemma BeginTree(cfg: Config)
    ensures Tree(cfg, Begin(cfg))
  {
  }

  lemma SkipTree(cfg: Config, d: Search)
    requires |d.stack| > 0 && Tree(cfg, d)
    ensures Tree(cfg, Skip(d))
  {
    forall b | b in d.pos && b != cfg.master ensures Child(cfg, Skip(d), b) {
      assert Child(cfg, d, b);
    }
    forall a, b | a in d.last && b in d.pos ensures Enclosed(Skip(d), a, b) {
      assert Enclosed(d, a, b);
    }
  }

  /** Unfinished boards are no younger than the top of the stack. */
  lemma UpToTop(cfg: Config, d: Search, y: nat)
    requires Stacked(cfg, d) && Tracked(d) && y in d.pos && y !in d.last
    ensures d.pos[y] <= d.pos[Top(d).board]
    ensures y != Top(d).board ==> d.pos[y] < d.pos[Top(d).board]
  {
    assert OnStack(d, y);
    var j :| 0 <= j < |d.stack| && d.stack[j].board == y;
    assert j < |d.stack| - 1 ==> d.pos[d.stack[j].board] < d.pos[d.stack[|d.stack| - 1].board];
  }

  lemma PushTree(cfg: Config, d: Search)
    requires cfg.net.Valid() && Inv(cfg, d) && Tree(cfg, d)
    requires TopPort(d) in cfg.net.wire && cfg.net.wire[TopPort(d)].board !in d.pos
    ensures Tree(cfg, Push(cfg, d))
  {
    var e := Push(cfg, d);
    assert d.order[0] == cfg.master;
    forall b | b in e.pos && b != cfg.master ensures Child(cfg, e, b) {
      PushChild(cfg, d, b);
    }
    forall a, b | a in e.last && b in e.pos ensures Enclosed(e, a, b) {
      PushEnclosed(cfg, d, a, b);
    }
  }

  lemma PushChild(cfg: Config, d: Search, b: nat)
    requires cfg.net.Valid() && Inv(cfg, d) && Tree(cfg, d)
    requires TopPort(d) in cfg.net.wire && cfg.net.wire[TopPort(d)].board !in d.pos
    requires b in Push(cfg, d).pos && b != cfg.master
    ensures Child(cfg, Push(cfg, d), b)
  {
    hide Finished, Passed, Linked, Enclosed, Child, Stacked;
    if b in d.pos {
      assert Child(cfg, d, b);
      OldChild(cfg, d, b);
    } else {
      NewChild(cfg, d);
    }
  }

  lemma OldChild(cfg: Config, d: Search, b: nat)
    requires |d.stack| > 0 && Child(cfg, d, b) && d.pos[b] < |d.order|
    requires TopPort(d) in cfg.net.wire && cfg.net.wire[TopPort(d)].board !in d.pos
    ensures Child(cfg, Push(cfg, d), b)
  {
  }

  lemma NewChild(cfg: Config, d: Search)
    requires cfg.net.Valid() && Inv(cfg, d)
    requires TopPort(d) in cfg.net.wire && cfg.net.wire[TopPort(d)].board !in d.pos
    ensures Child(cfg, Push(cfg, d), cfg.net.wire[TopPort(d)].board)
  {
    hide Finished, Passed, Linked;
    forall y | y in d.pos && d.pos[Top(d).board] < d.pos[y] ensures y in d.last && d.last[y] < |d.order| {
      if y !in d.last {
        UpToTop(cfg, d, y);
      }
    }
  }

  lemma PushEnclosed(cfg: Config, d: Search, a: nat, b: nat)
    requires Inv(cfg, d) && Tree(cfg, d)
    requires TopPort(d) in cfg.net.wire && cfg.net.wire[TopPort(d)].board !in d.pos
    requires a in d.last && b in Push(cfg, d).pos
    ensures Enclosed(Push(cfg, d), a, b)
  {
    hide Finished, Passed, Stacked, Child;
    if b in d.pos {
      assert Enclosed(d, a, b);
    }
  }

  lemma PopTree(cfg: Config, d: Search)
    requires Inv(cfg, d) && Tree(cfg, d) && |d.stack| > 1
    ensures Tree(cfg, Pop(d))
  {
    hide Finished, Passed, Linked, Stacked, Enclosed;
    var e := Pop(d);
    forall b | b in e.pos && b != cfg.master ensures Child(cfg, e, b) {
      assert Child(cfg, d, b);
      PopChild(cfg, d, b);
    }
    forall a, b | a in e.last && b in e.pos ensures Enclosed(e, a, b) {
      PopEnclosed(cfg, d, a, b);
    }
  }

  lemma PopChild(cfg: Config, d: Search, b: nat)
    requires |d.stack| > 1 && |d.order| > 0 && Stacked(cfg, d) && Tracked(d) && Child(cfg, d, b)
    requires d.pos[b] < |d.order|
    ensures Child(cfg, Pop(d), b)
  {
    var c := Top(d).board;
    assert d.stack[|d.stack| - 1].board == c;
  }

  lemma PopEnclosed(cfg: Config, d: Search, a: nat, b: nat)
    requires Inv(cfg, d) && Tree(cfg, d) && |d.stack| > 1
    requires a in Pop(d).last && b in d.pos
    ensures Enclosed(Pop(d), a, b)
  {
    hide Finished, Passed, Linked, Child;
    var c := Top(d).board;
    assert d.stack[|d.stack| - 1].board == c;
    if a != c {
      assert Enclosed(d, a, b) && Enclosed(d, a, c);
    } else if b != c && b !in d.last {
      UpToTop(cfg, d, b);
    }
  }
}
