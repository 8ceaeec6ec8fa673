/** Delivery of the routing tables as a stream of rows, and what the receiver makes of it. */
module Delivery {

  datatype RowMsg = Info(node: nat, mask: bv8) | EndInfo

  /** The messages with the entries of a row from k up to, but not including, `last`: empty masks
      are not sent. */
  function Entries(row: seq<bv8>, k: nat, last: nat): seq<RowMsg>
    requires k <= last <= |row|
    decreases last - k
  {
    if k == last then []
    else if row[k] == 0 then Entries(row, k + 1, last)
    else [Info(k, row[k])] + Entries(row, k + 1, last)
  }

  function Greater(a: nat, b: nat): nat {
    if a > b then a else b
  }

  /** The receiver's table and greatest id after it has read the messages. */
  function Read(table: seq<bv8>, max: nat, ms: seq<RowMsg>): (seq<bv8>, nat)
    decreases |ms|
  {
    if ms == [] then (table, max)
    else if ms[0].Info? && ms[0].node < |table| then
      Read(table[ms[0].node := ms[0].mask], if max < ms[0].node then ms[0].node else max, ms[1..])
    else Read(table, max, ms[1..])
  }

  ghost predicate Entered(row: seq<bv8>, table: seq<bv8>, k: nat, last: nat)
    requires k <= last <= |row|
  {
    && |table| == |row|
    && (forall j :: 0 <= j < k ==> table[j] == row[j])
    && (forall j :: k <= j < |row| ==> table[j] == 0)
  }

  /** Reading the entries of a row restores it, and the greatest id read is the last non-empty one. */
  lemma {:induction false} ReadRestores(row: seq<bv8>, table: seq<bv8>, max: nat, k: nat, last: nat)
    requires k <= last <= |row| && Entered(row, table, k, last)
    requires max == 0 || (max < k && row[max] != 0)
    requires forall j :: max < j < k ==> row[j] == 0
    ensures var (t, m) := Read(table, max, Entries(row, k, last));
            && Entered(row, t, last, last)
            && (m == 0 || (m < last && row[m] != 0)) && (forall j :: m < j < last ==> row[j] == 0)
    decreases last - k
  {
    if k < last {
      if row[k] == 0 {
        ReadRestores(row, table, max, k + 1, last);
      } else {
        var ms := [Info(k, row[k])] + Entries(row, k + 1, last);
        assert ms[1..] == Entries(row, k + 1, last);
        ReadRestores(row, table[k := row[k]], if max < k then k else max, k + 1, last);
      }
    }
  }

  /** The master's loop over the entries of one destination's row. */
  method SendRow(row: seq<bv8>, last: nat) returns (sent: seq<RowMsg>)
    requires last <= |row|
    ensures sent == Entries(row, 0, last)
  {
    sent := [];
    for k := 0 to last
      invariant sent + Entries(row, k, last) == Entries(row, 0, last)
    {
      if row[k] != 0 {
        sent := sent + [Info(k, row[k])];
      }
    }
  }

  /** The slave's receive loop: it reads rows until END_INFO, and reports the greatest id, its own
      included. `mail` is what arrives; the loop leaves what follows END_INFO. */
  method ReceiveRoutingTables(nodeId: nat, table: array<bv8>, mail: seq<RowMsg>, ghost rows: seq<RowMsg>)
    returns (maxNodeId: nat)
    requires rows + [EndInfo] <= mail
    requires forall i :: 0 <= i < |rows| ==> rows[i].Info? && rows[i].node < table.Length
    modifies table
    ensures var (t, m) := Read(seq(table.Length, _ => 0), 0, rows);
            table[..] == t && maxNodeId == Greater(nodeId, m)
  {
    for i := 0 to table.Length
      invariant forall j :: 0 <= j < i ==> table[j] == 0
    {
      table[i] := 0;
    }
    var maxId: nat, k: nat, done := 0, 0, false;
    assert table[..] == seq(table.Length, _ => 0);
    maxNodeId := 0;
    assert rows[0..] == rows;
    while !done
      invariant k <= |rows| + (if done then 1 else 0)
      invariant !done ==> Read(seq(table.Length, _ => 0), 0, rows) == Read(table[..], maxId, rows[k..])
      invariant done ==> Read(seq(table.Length, _ => 0), 0, rows) == (table[..], maxId)
                         && maxNodeId == if nodeId > maxId then nodeId else maxId
      decreases |rows| + 1 - k
    {
      var m := mail[k];
      assert m == (rows + [EndInfo])[k];
      if m.Info? {
        assert rows[k..][0] == m && rows[k..][1..] == rows[k + 1..];
        table[m.node] := m.mask;
        if maxId < m.node {
          maxId := m.node;
        }
      } else {
        maxNodeId := if nodeId > maxId then nodeId else maxId;
        done := true;
      }
      k := k + 1;
    }
  }

  /** A delivered row arrives unchanged, and the slave learns the last id of the network exactly
      when it is that node or has a route to it. */
  lemma RoundTrip(row: seq<bv8>, last: nat, nodeId: nat)
    requires 0 < last <= |row| && nodeId < last && forall j :: last <= j < |row| ==> row[j] == 0
    ensures var (t, m) := Read(seq(|row|, _ => 0), 0, Entries(row, 0, last));
            && t == row
            && (Greater(nodeId, m) == last - 1 <==> nodeId == last - 1 || row[last - 1] != 0)
  {
    ReadRestores(row, seq(|row|, _ => 0), 0, 0, last);
    var (t, m) := Read(seq(|row|, _ => 0), 0, Entries(row, 0, last));
    assert t == row;
    assert m < last - 1 ==> row[last - 1] == 0;
  }

  /** The master's wait for replies: each id counts once, and the loop reads up to the reply that
      brings the number of distinct ids to the number of slaves. */
  method WaitRtReceived(slaves: nat, size: nat, arrivals: seq<nat>) returns (read: nat, ghost got: set<nat>)
    requires forall i :: 0 <= i < |arrivals| ==> arrivals[i] < size
    requires |Distinct(arrivals)| >= slaves
    ensures read <= |arrivals| && got == Distinct(arrivals[..read]) && |got| == slaves
    ensures forall r :: 0 <= r < read ==> |Distinct(arrivals[..r])| < slaves
  {
    var received := new bool[size](_ => false);
    var num := 0;
    read := 0;
    got := {};
    assert Distinct(arrivals[..0]) == {};
    assert arrivals[..|arrivals|] == arrivals;
    hide Distinct;
    while num != slaves
      invariant read <= |arrivals| && got == Distinct(arrivals[..read]) && num == |got| <= slaves
      invariant forall j: nat :: j < size ==> (received[j] <==> j in got)
      invariant forall r :: 0 <= r < read ==> |Distinct(arrivals[..r])| < slaves
      decreases |arrivals| - read
    {
      var k := arrivals[read];
      DistinctNext(arrivals, read);
      assert |Distinct(arrivals[..read])| < slaves;
      if !received[k] {
        assert |got + {k}| == |got| + 1;
        received[k] := true;
        num := num + 1;
      } else {
        assert got + {k} == got;
      }
      got := got + {k};
      read := read + 1;
    }
  }

  lemma DistinctNext(s: seq<nat>, k: nat)
    requires k < |s|
    ensures Distinct(s[..k + 1]) == Distinct(s[..k]) + {s[k]}
  {
    assert s[..k + 1] == s[..k] + [s[k]];
  }

  ghost function Distinct(s: seq<nat>): set<nat> {
    set k | k in s
  }

  // ----- the flood, as one board goes through it -----

  /** The connected interfaces below k, in order. */
  function Connected(connected: seq<bool>, k: nat): (ps: seq<nat>)
    requires k <= |connected|
    ensures forall i: nat :: i in ps <==> i < k && connected[i]
    ensures forall i, j :: 0 <= i < j < |ps| ==> ps[i] < ps[j]
  {
    if k == 0 then []
    else
      var ps := Connected(connected, k - 1);
      assert forall i :: 0 <= i < |ps| ==> ps[i] in ps;
      if connected[k - 1] then ps + [k - 1] else ps
  }

  /** The position of the first SET_ROUTING in what arrives. */
  ghost predicate FirstSet(inbox: seq<bool>, k: nat) {
    k < |inbox| && inbox[k] && forall i :: 0 <= i < k ==> !inbox[i]
  }

  method WriteRoutingTable(table: array<bv8>, regs: array<bv8>)
    requires table.Length == regs.Length && table != regs
    modifies regs
    ensures regs[..] == table[..]
  {
    for i := 0 to regs.Length
      invariant forall j :: 0 <= j < i ==> regs[j] == table[j]
    {
      regs[i] := table[i];
    }
  }

  /** A board's part in the flood: the master writes its registers at once, a slave on the first
      SET_ROUTING; each then sends over every connected interface once, and takes one message for
      each of them, the first included. Messages of another kind only count while a slave waits. */
  method SetRoutingTable(nodeId: nat, table: array<bv8>, regs: array<bv8>, loopback: bv8, master: bool,
                         connected: seq<bool>, inbox: seq<bool>, ghost first: nat)
    returns (sent: seq<nat>, taken: nat)
    requires nodeId < table.Length == regs.Length && table != regs
    requires if master then |Connected(connected, |connected|)| <= |inbox|
             else
               && FirstSet(inbox, first) && Connected(connected, |connected|) != []
               && first + |Connected(connected, |connected|)| <= |inbox|
    modifies table, regs
    ensures regs[..] == table[..] == old(table[..])[nodeId := loopback]
    ensures sent == Connected(connected, |connected|)
    ensures taken == (if master then 0 else first) + |sent|
  {
    hide Connected;
    table[nodeId] := loopback;
    taken, sent := 0, [];
    if !master {
      while !inbox[taken]
        modifies {}
        invariant taken <= first
        decreases first - taken
      {
        taken := taken + 1;
      }
      taken := taken + 1;
    }
    WriteRoutingTable(table, regs);
    NoneConnected(connected);
    for i := 0 to |connected|
      modifies {}
      invariant sent == Connected(connected, i)
    {
      OneConnected(connected, i);
      if connected[i] {
        sent := sent + [i];
      }
    }
    var left := if master then |sent| else |sent| - 1;
    while left > 0
      modifies {}
      invariant 0 <= left && taken + left == (if master then 0 else first) + |sent|
    {
      taken, left := taken + 1, left - 1;
    }
  }

  lemma NoneConnected(connected: seq<bool>)
    ensures Connected(connected, 0) == []
  {
  }

  lemma OneConnected(connected: seq<bool>, k: nat)
    requires k < |connected|
    ensures Connected(connected, k + 1) ==
            if connected[k] then Connected(connected, k) + [k] else Connected(connected, k)
  {
  }
}
