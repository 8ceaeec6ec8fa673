/** The recursive renumbering of a connected network numbers every board once, without gaps. */
module RenumberingFacts {
  import opened Networks
  import opened DepthFirst
  import opened Renumbering
  import opened DiscoveryRuns

  /** The stack search, run to its end. */
  lemma {:induction false} SearchEnds(cfg: Config, d: Search) returns (e: Search)
    requires cfg.Valid() && Inv(cfg, d)
    ensures Inv(cfg, e) && |e.stack| == 1 && Top(e).iface == cfg.net.ifaces && Rest(cfg, e) == Rest(cfg, d)
    decreases Work(cfg, d)
  {
    hide Numbering, Stacked, Tracked, Finished, Passed, Rest, Work, Net.Connected;
    WorkBound(cfg, d);
    TopFrame(cfg, d);
    if Top(d).iface < cfg.net.ifaces {
      if TopPort(d) in cfg.net.wire && cfg.net.wire[TopPort(d)].board !in d.pos {
        PushInv(cfg, d);
        PushVisit(cfg, d);
        PushWork(cfg, d);
        WorkBound(cfg, Push(cfg, d));
        e := SearchEnds(cfg, Push(cfg, d));
      } else {
        SkipInv(cfg, d);
        SkipVisit(cfg, d);
        SkipWork(cfg, d);
        WorkBound(cfg, Skip(d));
        e := SearchEnds(cfg, Skip(d));
      }
    } else if |d.stack| > 1 {
      PopInv(cfg, d);
      PopVisit(cfg, d);
      PopWork(cfg, d);
      WorkBound(cfg, Pop(d));
      e := SearchEnds(cfg, Pop(d));
    } else {
      e := d;
    }
  }

  lemma TopFrame(cfg: Config, d: Search)
    requires Inv(cfg, d)
    ensures Top(d).iface <= cfg.net.ifaces
  {
    assert d.stack[|d.stack| - 1] == Top(d);
  }

  /** The stack search from the master, run to its end, hands out the numbers of the recursive
      renumbering, to every board. */
  lemma SearchIsVisit(cfg: Config) returns (d: Search)
    requires cfg.Valid()
    ensures Inv(cfg, d) && |d.stack| == 1 && Top(d).iface == cfg.net.ifaces
    ensures Visit(cfg.net, cfg.master, 0, Numbers(map[cfg.master := 0], 0)) == Numbers(d.pos, |d.order| - 1)
    ensures forall b :: 0 <= b < cfg.net.boards <==> b in d.pos
  {
    hide Stacked, Tracked, Finished, Passed, Rest, Net.Connected, Visit;
    BeginInv(cfg);
    BeginVisit(cfg);
    d := SearchEnds(cfg, Begin(cfg));
    EndVisit(cfg, d);
    AllNumbered(cfg, d);
  }

  lemma VisitComplete(cfg: Config)
    requires cfg.Valid()
    ensures var n := Visit(cfg.net, cfg.master, 0, Numbers(map[cfg.master := 0], 0));
            && (forall b :: 0 <= b < cfg.net.boards <==> b in n.of)
            && (forall b :: b in n.of ==> n.of[b] < cfg.net.boards)
            && (forall a, b :: a in n.of && b in n.of && a != b ==> n.of[a] != n.of[b])
            && n.max == cfg.net.boards - 1
  {
    hide Stacked, Tracked, Finished, Passed, Rest, Net.Connected, Visit;
    var d := SearchIsVisit(cfg);
    AllNumbered(cfg, d);
    forall a, b | a in d.pos && b in d.pos && a != b ensures d.pos[a] != d.pos[b] {
      assert d.order[d.pos[a]] == a && d.order[d.pos[b]] == b;
    }
  }
}
