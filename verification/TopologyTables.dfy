/** The topology table of a board and the messages that copy it to the parent. */
module TopologyTables {

  /** A cell of the table: interface `iface` of the board numbered `id`. */
  datatype Slot = Slot(id: nat, iface: nat)

  /** The id found behind each known slot; a missing slot is AXIOM_NULL_NODE. */
  type Table = map<Slot, nat>

  /** A TOPOLOGY message: interface `srcIf` of `src` and interface `dstIf` of `dst` share a cable. */
  datatype Link = Link(src: nat, dst: nat, srcIf: nat, dstIf: nat)

  /** Both ends of a cable enter the table. */
  function Record(t: Table, l: Link): Table {
    t[Slot(l.src, l.srcIf) := l.dst][Slot(l.dst, l.dstIf) := l.src]
  }

  /** The receiver's side: every link of the stream is recorded. */
  function Replay(t: Table, ls: seq<Link>): Table
    decreases |ls|
  {
    if ls == [] then t else Replay(Record(t, ls[0]), ls[1..])
  }

  /** The first interface from w on behind which `id` sees `other`; `ifaces` when there is none. */
  function FirstBack(t: Table, id: nat, other: nat, w: nat, ifaces: nat): (r: nat)
    requires w <= ifaces
    ensures w <= r <= ifaces
    ensures r < ifaces ==> Slot(id, r) in t && t[Slot(id, r)] == other
    ensures forall v :: w <= v < r ==> !(Slot(id, v) in t && t[Slot(id, v)] == other)
    decreases ifaces - w
  {
    if w == ifaces || (Slot(id, w) in t && t[Slot(id, w)] == other) then w
    else FirstBack(t, id, other, w + 1, ifaces)
  }

  /** The sender's side: the known cells from (i, j) on, row by row. */
  function Stream(t: Table, rows: nat, ifaces: nat, i: nat, j: nat): seq<Link>
    requires i <= rows && j <= ifaces
    decreases rows - i, ifaces - j
  {
    if i == rows then []
    else if j == ifaces then Stream(t, rows, ifaces, i + 1, 0)
    else if Slot(i, j) !in t then Stream(t, rows, ifaces, i, j + 1)
    else
      var other := t[Slot(i, j)];
      [Link(i, other, j, FirstBack(t, other, i, 0, ifaces))] + Stream(t, rows, ifaces, i, j + 1)
  }

  /** Whatever one board knows about a cable is known from the other end as well. */
  ghost predicate Symmetric(t: Table, rows: nat, ifaces: nat) {
    forall k {:trigger Mirrored(t, rows, ifaces, k)} :: k in t ==> Mirrored(t, rows, ifaces, k)
  }

  ghost predicate Mirrored(t: Table, rows: nat, ifaces: nat, k: Slot)
    requires k in t
  {
    && k.id < rows && k.iface < ifaces
    && exists w :: 0 <= w < ifaces && Slot(t[k], w) in t && t[Slot(t[k], w)] == k.id
  }

  /** r comes from u by writing cells of t, at least those at or after (i, j). */
  ghost predicate Overlaid(u: Table, t: Table, r: Table, i: nat, j: nat) {
    && (forall k :: k in u ==> k in r)
    && (forall k :: k in r ==> (k in u && r[k] == u[k]) || (k in t && r[k] == t[k]))
    && (forall k :: k in t && (AtOrAfter(k, i, j) || (k in u && u[k] == t[k])) ==> k in r && r[k] == t[k])
  }

  predicate AtOrAfter(k: Slot, i: nat, j: nat) {
    k.id > i || (k.id == i && k.iface >= j)
  }

  lemma {:induction false} ReplayOverlays(u: Table, t: Table, rows: nat, ifaces: nat, i: nat, j: nat)
    requires Symmetric(t, rows, ifaces) && i <= rows && j <= ifaces
    ensures Overlaid(u, t, Replay(u, Stream(t, rows, ifaces, i, j)), i, j)
    decreases rows - i, ifaces - j
  {
    if i == rows {
      forall k | k in t ensures !AtOrAfter(k, i, j) {
        assert Mirrored(t, rows, ifaces, k);
      }
    } else if j == ifaces {
      forall k | k in t && AtOrAfter(k, i, j) ensures AtOrAfter(k, i + 1, 0) {
        assert Mirrored(t, rows, ifaces, k);
      }
      ReplayOverlays(u, t, rows, ifaces, i + 1, 0);
    } else if Slot(i, j) !in t {
      ReplayOverlays(u, t, rows, ifaces, i, j + 1);
    } else {
      var other := t[Slot(i, j)];
      var w := FirstBack(t, other, i, 0, ifaces);
      assert w < ifaces by {
        assert Mirrored(t, rows, ifaces, Slot(i, j));
      }
      var v := Record(u, Link(i, other, j, w));
      ReplayOverlays(v, t, rows, ifaces, i, j + 1);
      ReplayStep(u, Link(i, other, j, w), Stream(t, rows, ifaces, i, j + 1));
      var r := Replay(u, Stream(t, rows, ifaces, i, j));
      assert Overlaid(v, t, r, i, j + 1);
    }
  }

  lemma ReplayStep(u: Table, l: Link, ls: seq<Link>)
    ensures Replay(u, [l] + ls) == Replay(Record(u, l), ls)
  {
    assert ([l] + ls)[1..] == ls;
  }

  /** Replaying the stream of a symmetric table lays that table over the receiver's. */
  lemma ReplayMerges(u: Table, t: Table, rows: nat, ifaces: nat)
    requires Symmetric(t, rows, ifaces)
    ensures Replay(u, Stream(t, rows, ifaces, 0, 0)) == u + t
  {
    var r := Replay(u, Stream(t, rows, ifaces, 0, 0));
    ReplayOverlays(u, t, rows, ifaces, 0, 0);
    assert Overlaid(u, t, r, 0, 0);
    assert forall k :: k in t ==> AtOrAfter(k, 0, 0);
    assert r == u + t;
  }
}
