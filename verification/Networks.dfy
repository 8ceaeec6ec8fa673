/** The physical network: anonymous boards joined by cables. */
module Networks {

  /** One end of a cable: an interface of a board. */
  datatype Port = Port(board: nat, iface: nat)

  /** `wire` sends each connected port to the port at the other end of its cable. */
  datatype Net = Net(boards: nat, ifaces: nat, wire: map<Port, Port>) {

    ghost predicate Valid() {
      forall p :: p in wire ==>
        && p.board < boards && p.iface < ifaces
        && wire[p] in wire && wire[wire[p]] == p
        && wire[p].board != p.board
    }

    /** No cable leaves the set of boards `s`. */
    ghost predicate Closed(s: set<nat>) {
      forall p :: p in wire && p.board in s ==> wire[p].board in s
    }

    /** Every board can be reached from `root` over cables. */
    ghost predicate Connected(root: nat) {
      && root < boards
      && forall s: set<nat> :: root in s && Closed(s) ==> forall b :: 0 <= b < boards ==> b in s
    }
  }
}
