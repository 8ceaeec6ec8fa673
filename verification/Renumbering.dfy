/** The recursive renumbering of a topology, and its agreement with the stack search. */
module Renumbering {
  import opened Networks
  import opened DepthFirst

  /** The numbers handed out so far and the greatest of them. */
  datatype Numbers = Numbers(of: map<nat, nat>, max: nat)

  /** Board b goes through its interfaces from i on: an unnumbered neighbour gets the next number
      and is visited at once. */
  function Visit(net: Net, b: nat, i: nat, n: Numbers): (r: Numbers)
    requires net.Valid() && i <= net.ifaces
    ensures n.of.Keys <= r.of.Keys
    decreases Unnumbered(net, n.of), net.ifaces - i
  {
    if i == net.ifaces then n
    else if Port(b, i) in net.wire && net.wire[Port(b, i)].board !in n.of then
      var c := net.wire[Port(b, i)].board;
      var m := Numbers(n.of[c := n.max + 1], n.max + 1);
      Fewer(net, n.of, m.of, c);
      var r := Visit(net, c, 0, m);
      Fewer(net, n.of, r.of, c);
      Visit(net, b, i + 1, r)
    else Visit(net, b, i + 1, n)
  }

  ghost function Unnumbered(net: Net, of: map<nat, nat>): set<nat> {
    (set p | p in net.wire :: p.board) - of.Keys
  }

  lemma Fewer(net: Net, of: map<nat, nat>, more: map<nat, nat>, c: nat)
    requires of.Keys <= more.Keys && c !in of && c in more
    requires exists p :: p in net.wire && p.board == c
    ensures Unnumbered(net, more) < Unnumbered(net, of)
  {
    var p :| p in net.wire && p.board == c;
    assert c in Unnumbered(net, of);
  }

  /** Finish the visits that a stack stands for, from the top down. */
  function Unwind(net: Net, stack: seq<Frame>, n: Numbers): Numbers
    requires net.Valid() && forall j :: 0 <= j < |stack| ==> stack[j].iface <= net.ifaces
    requires forall j :: 0 <= j < |stack| - 1 ==> stack[j].iface < net.ifaces
    decreases |stack|
  {
    if stack == [] then n
    else
      var top := stack[|stack| - 1];
      Unwind(net, Resumed(stack), Visit(net, top.board, top.iface, n))
  }

  /** The stack without its top, whose parent moves to its next interface. */
  function Resumed(stack: seq<Frame>): seq<Frame>
    requires stack != []
  {
    if |stack| == 1 then []
    else
      var below := stack[|stack| - 2];
      stack[..|stack| - 2] + [Frame(below.board, below.iface + 1)]
  }

  ghost function Rest(cfg: Config, d: Search): Numbers
    requires cfg.net.Valid() && Inv(cfg, d)
  {
    LowerFrames(cfg, d);
    Unwind(cfg.net, d.stack, Numbers(d.pos, |d.order| - 1))
  }

  lemma LowerFrames(cfg: Config, d: Search)
    requires cfg.net.Valid() && Stacked(cfg, d)
    ensures forall j :: 0 <= j < |d.stack| - 1 ==> d.stack[j].iface < cfg.net.ifaces
  {
    forall j | 0 <= j < |d.stack| - 1 ensures d.stack[j].iface < cfg.net.ifaces {
      assert Linked(cfg, d, j + 1);
    }
  }

  lemma SkipVisit(cfg: Config, d: Search)
    requires cfg.net.Valid() && Inv(cfg, d) && Top(d).iface < cfg.net.ifaces && Inv(cfg, Skip(d))
    requires TopPort(d) in cfg.net.wire ==> cfg.net.wire[TopPort(d)].board in d.pos
    ensures Rest(cfg, Skip(d)) == Rest(cfg, d)
  {
    hide Numbering, Finished, Passed, Tracked, Stacked;
    LowerFrames(cfg, d);
    LowerFrames(cfg, Skip(d));
    assert Resumed(Skip(d).stack) == Resumed(d.stack);
  }

  lemma PushVisit(cfg: Config, d: Search)
    requires cfg.net.Valid() && Inv(cfg, d) && Top(d).iface < cfg.net.ifaces
    requires TopPort(d) in cfg.net.wire && cfg.net.wire[TopPort(d)].board !in d.pos
    requires Inv(cfg, Push(cfg, d))
    ensures Rest(cfg, Push(cfg, d)) == Rest(cfg, d)
  {
    hide Numbering, Finished, Passed, Tracked, Stacked;
    LowerFrames(cfg, d);
    LowerFrames(cfg, Push(cfg, d));
    var f, c := Top(d), cfg.net.wire[TopPort(d)].board;
    var m := Visit(cfg.net, c, 0, Numbers(Push(cfg, d).pos, |d.order|));
    assert Resumed(Push(cfg, d).stack) == Skip(d).stack;
    assert Unwind(cfg.net, Push(cfg, d).stack, Numbers(Push(cfg, d).pos, |d.order|)) ==
           Unwind(cfg.net, Skip(d).stack, m);
    assert Resumed(Skip(d).stack) == Resumed(d.stack);
  }

  lemma PopVisit(cfg: Config, d: Search)
    requires cfg.net.Valid() && Inv(cfg, d) && |d.stack| > 1 && Top(d).iface == cfg.net.ifaces && Inv(cfg, Pop(d))
    ensures Rest(cfg, Pop(d)) == Rest(cfg, d)
  {
    hide Numbering, Finished, Passed, Tracked, Stacked;
    LowerFrames(cfg, d);
    LowerFrames(cfg, Pop(d));
    assert Resumed(d.stack) == Pop(d).stack;
  }

  /** A search that has ended handed out the numbers of the recursive renumbering. */
  lemma EndVisit(cfg: Config, d: Search)
    requires cfg.net.Valid() && Inv(cfg, d) && |d.stack| == 1 && Top(d).iface == cfg.net.ifaces
    ensures Rest(cfg, d) == Numbers(d.pos, |d.order| - 1)
  {
    LowerFrames(cfg, d);
    assert Resumed(d.stack) == [];
    assert Unwind(cfg.net, [], Numbers(d.pos, |d.order| - 1)) == Numbers(d.pos, |d.order| - 1);
  }

  lemma BeginVisit(cfg: Config)
    requires cfg.Valid() && Inv(cfg, Begin(cfg))
    ensures Rest(cfg, Begin(cfg)) == Visit(cfg.net, cfg.master, 0, Numbers(map[cfg.master := 0], 0))
  {
    LowerFrames(cfg, Begin(cfg));
    var n := Visit(cfg.net, cfg.master, 0, Numbers(map[cfg.master := 0], 0));
    assert Resumed(Begin(cfg).stack) == [];
    assert Unwind(cfg.net, [], n) == n;
  }
}
