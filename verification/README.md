# AXIOM network applications: a verified model

The AXIOM boards form a network of point-to-point cables. This project models the programs that
bring such a network up and use it, and proves what they promise over every run.

**Bring-up** (axiom-init) goes through four stages, and each relies on what the one before it left:

1. *Discovery.* Boards without ids are numbered by a depth-first search that passes a token over the
   cables (REQ_ID, RSP_ID / RSP_NOID, SETID, START, TOPOLOGY, END_TOPOLOGY). `Discovery` is the
   protocol as a step system over first-in first-out cables; `DepthFirst`, `SearchTree`,
   `Renumbering` and `Knowledge` are the search that explains it; `DiscoveryInv`, `DiscoverySteps`,
   `DiscoveryRoutes`, `DiscoveryTruth` and `DiscoveryRuns` say what every step keeps;
   `DiscoveryTheorems` and `InterimRouting` are the results. `DiscoveryDevice` is the code of a board,
   with its matrix and registers updated in place, `DiscoveryBounds` shows that it stays within them,
   and `ExpectedTopology` is the renumbering that the repository's own test computes in place.
2. *Routing tables.* A breadth-first search from every node fills rows of interface masks
   (`Fabrics`, `InterfaceMasks`, `RouteSpec`, `RoutingTables`, `RouteTheorems`).
3. *Delivery* of the rows, closed by a count of replies (`Delivery`).
4. *Installation* by a flood of SET_ROUTING messages (`Install`, `InstallInv`, `InstallSteps`,
   `InstallTheorems`). `BringUp` puts the stages together, and `EndToEnd` says where packets then go.

**Users of the network**: the output merging, barriers and exit status of axiom-run (`OutputMerge`,
`Barrier`, `ExitStatus`), remote execution (`Spawn`, `SpawnRuns`, `SpawnTheorems`), axiom-netperf
(`Netperf`, `NetperfInv`, `NetperfTheorems`), axiom-traceroute (`Traceroute`) and the scheduling
option, printed and read back (`SchedulerOption`), with the language its reader accepts
(`SchedulerGrammar`). `FiniteSets` and `Options` hold what several modules share.

The wiring is a fixed-point-free involution on (board, interface) pairs without a cable from a board
to itself. The constants of the NIC headers (numbers of nodes and interfaces, the null node, the
loopback bit) are parameters, bounded where the 8-bit ids and counters of the source ask for it.

## What was found

- The routing search counts interfaces, not neighbours, so with parallel cables it can end early.
  `RouteTheorems.CompleteIff` gives the exact condition, `DoubleLineStopsEarly` a line of four
  nodes where node 1 never gets a route to node 4, and `EndToEnd.SendsOnIff` what it means for packets.
- The interim tables of discovery carry packets between a board and its ancestors and descendants,
  and between no others (`InterimRouting.ArrivesIff`, `InterimRouting.SiblingsCut`).
- With parallel cables a TOPOLOGY message may pair interfaces of two different cables; the entries it
  writes are true all the same (`DiscoveryTheorems.TablesTrue`).
- The branch of a slave that already has an id is dead code: the id was just reset
  (axiom-init/axiom-discovery/axiom_discovery_protocol.c:324-354).
- The final flush of axiom-run tests all flags, not the ident flag, so it writes marks nobody asked
  for when only an exit mode is set (`OutputMerge.FlushMarksIff`, `OutputMerge.FlushMarksExtra`).
- The fifth of five remote executions that start together loses its executable
  (`SpawnTheorems.FifthLost`, `SpawnTheorems.LaunchExactIff`), and if it goes on first its session is
  never given back (`SpawnTheorems.FifthSession`, `SpawnTheorems.SessionLostIff`).
- An RDMA netperf test with two threads can announce its end before the last write
  (`NetperfTheorems.EndAfterWritesIff`); a RAW or LONG test of no bytes never ends
  (`NetperfTheorems.EndsIff`, `NetperfTheorems.NoBytesHang`).
- A scheduling option with a parameter of 2^63 or more, such as a negative nice value, does not
  survive printing and reading (`SchedulerOption.RoundTripIff`), and the 64-byte buffer of axiom-run
  is too short for some deadline options (`SchedulerOption.BufferIff`).
- A refused scheduling option has already set its policy and the parameters before the fault, and
  axiom-run, whose usage message does not end the program, goes on with them
  (`SchedulerGrammar.RefusedSets`).

## Model

| member | source | states |
|---|---|---|
| `DepthFirst.AllNumbered` | axiom-init/axiom-discovery/axiom_discovery_protocol.c:86-266 | On a connected network the search that has scanned the master's interfaces has numbered every board. |
| `RenumberingFacts.SearchIsVisit` | axiom-init/axiom-discovery/axiom_discovery_protocol.c:155-181 | The stack search from the master ends, and has then handed out exactly the numbers of the recursive renumbering, to every board. |
| `TopologyTables.ReplayMerges` | axiom-init/axiom-discovery/axiom_discovery_protocol.c:412-433 | Replaying the TOPOLOGY stream of a symmetric table makes the receiver's table the union of both. |
| `Knowledge.TableSymmetric` | axiom-init/axiom-discovery/axiom_discovery_protocol.c:418-422 | The search for the remote interface succeeds for every entry of a board's table. |
| `DiscoveryRuns.Step` | axiom-init/axiom-discovery/axiom_discovery_protocol.c:86-266 | Every enabled step keeps the whole invariant (token, stack, tables, routes, truth) and makes a lexicographic measure smaller. |
| `DiscoveryTheorems.OneToken` | axiom-init/axiom-discovery/axiom_discovery_protocol.c:86-266 | In every reachable state exactly one holds: one board scans and nothing is under way; none scans and all that is under way travels over one cable in one direction; or all boards are done. |
| `DiscoveryTheorems.HeadAwaited` | axiom-init/axiom-discovery/axiom_discovery_protocol.c:188-262 | The next message of a cable is awaited by its board, an answer is addressed to it, and a REQ_ID reaches an idle board or one in its wait loop, never a finished one. |
| `DiscoveryTheorems.TablesTrue` | axiom-init/axiom-discovery/axiom_discovery_protocol.c:139-181 | At all times every table is a symmetric part of the true wiring, even with parallel cables. |
| `DiscoveryTheorems.NeverBlocks` | axiom-init/axiom-discovery/axiom_discovery_protocol.c:309-449 | In a reachable state no step is possible if and only if all boards are done. |
| `DiscoveryTheorems.EveryRunEnds` | axiom-init/axiom-discovery/axiom_discovery_protocol.c:86-266 | No infinite run exists. |
| `DiscoveryTheorems.SomeEnd` | axiom-init/axiom-discovery/axiom_discovery_protocol.c:273-292 | On every connected network a state in which all boards are done is reached. |
| `DiscoveryTheorems.IdsExact` | axiom-init/axiom-discovery/axiom_discovery_protocol.c:273-292 | At the end the ids are distinct, fill the range from the master's id without gap, are those of the recursive renumbering, and the master counts them. |
| `DiscoveryTheorems.TopologyExact` | axiom-init/axiom-discovery/axiom_discovery_protocol.c:234-250 | At the end the master's table is the wiring renamed by the ids: every cable is in it, and every entry is a cable. |
| `InterimRouting.WithinIff` | axiom-init/axiom-discovery/axiom_discovery_protocol.c:249-259 | At the end the ids from a board's own to the last it has heard of are exactly those of the boards that reach it by climbing their interfaces to the parent. |
| `InterimRouting.ArrivesIff` | axiom-init/axiom-discovery/axiom_discovery_protocol.c:170-174 | By the interim tables a packet from x arrives at y exactly when one is the other or below it in the search tree. |
| `InterimRouting.SiblingsCut` | axiom-init/axiom-discovery/axiom_discovery_protocol.c:249-259 | Two boards with one cable each to the master: discovery ends, and no packet from one arrives at the other. |
| `InterimRouting.MasterReaches` | axiom-init/axiom-discovery/axiom_discovery_protocol.c:331-338 | The master reaches every board and every board reaches the master. |
| `DiscoveryDevice.Device.TopologyInit` | axiom-init/axiom-discovery/axiom_discovery_protocol.c:24-34 | The matrix is cleared: no cable is known. |
| `DiscoveryDevice.Device.RoutingInit` | axiom-init/axiom-discovery/axiom_discovery_protocol.c:43-53 | The registers are cleared: no route is known. |
| `DiscoveryDevice.Device.RouteRange` | axiom-init/axiom-discovery/axiom_discovery_protocol.c:253-258 | The ids of a subtree, and no others, get the interface towards it. |
| `DiscoveryDevice.Device.RecordLink` | axiom-init/axiom-discovery/axiom_discovery_protocol.c:234-237 | Both ends of a cable enter the matrix and nothing else changes. |
| `DiscoveryDevice.Device.Receive` | axiom-init/axiom-discovery/axiom_discovery_protocol.c:118-262 | The in-place code that consumes a message is the protocol's step on the board, whenever the cells and registers that this message makes it touch exist. |
| `DiscoveryDevice.Device.BeAsked` | axiom-init/axiom-discovery/axiom_discovery_protocol.c:309-366 | On the first REQ_ID a board forgets its tables and id, routes all ids up to the asker's towards it, and answers that it has no id. |
| `DiscoveryDevice.Device.Collect` | axiom-init/axiom-discovery/axiom_discovery_protocol.c:205-262 | While its child searches, a board answers requests, records cables, and at the end routes the child's whole subtree. |
| `DiscoveryDevice.Device.Respond` | axiom-init/axiom-discovery/axiom_discovery_protocol.c:134-203 | So is the code for the answer to REQ_ID, both for a board with an id and for a new one. |
| `DiscoveryDevice.Device.NameBoard` | axiom-init/axiom-discovery/axiom_discovery_protocol.c:155-203 | The new board gets the next id, a route, its cable at both ends, and SETID before START. |
| `DiscoveryDevice.Device.TopologyList` | axiom-init/axiom-discovery/axiom_discovery_protocol.c:412-433 | The nested loops produce the stream that `ReplayMerges` is about. |
| `DiscoveryDevice.Device.FindBack` | axiom-init/axiom-discovery/axiom_discovery_protocol.c:418-422 | The search finds the first interface that leads back, or the number of interfaces. |
| `DiscoveryDevice.Device.ScanInterface` | axiom-init/axiom-discovery/axiom_discovery_protocol.c:86-118 | The head of the interface loop is the protocol's local step. |
| `DiscoveryBounds.HeadFits` | axiom-init/axiom-discovery/axiom_discovery_protocol.c:139-258 | In every reachable state the next message of a cable makes its board touch only cells and registers that exist, up to a network that fills the matrix. |
| `DiscoveryBounds.ScannerFits` | axiom-init/axiom-discovery/axiom_discovery_protocol.c:413-422 | In every reachable state the board that scans has a row of its own, and all ids in its table are rows. |
| `DiscoveryBounds.TakeMessage` | axiom-init/axiom-discovery/axiom_discovery_protocol.c:118-262 | So in every reachable state the code takes a delivered message as the protocol does, without further conditions. |
| `DiscoveryBounds.MoveAlong` | axiom-init/axiom-discovery/axiom_discovery_protocol.c:86-118 | And it moves its scan along as the protocol does. |
| `ExpectedTopology.Intermediate` | axiom-init/axiom-discovery/test/axiom_discovery_protocol_test.c:251-281 | The recursive in-place renumbering computes the recursive specification, renames the rows it has visited, and leaves every cell without a cable alone. |
| `ExpectedTopology.ComputeFinalTopology` | axiom-init/axiom-discovery/test/axiom_discovery_protocol_test.c:284-304 | From an empty matrix: the row of each board's number shows the number of the board behind each interface, or nothing; all other rows show nothing. |
| `ExpectedTopology.MoveRows` | axiom-init/axiom-discovery/test/axiom_discovery_protocol_test.c:294-303 | Moving the rows by the new numbers loses no cell, connected or not, and fills no other row. |
| `ExpectedTopology.DiscoveryMeetsTest` | axiom-init/axiom-discovery/test/axiom_discovery_protocol_test.c:547-586 | On every run the whole discovered matrix is the expected one, cell by cell in both directions, up to the master's id. |
| `RoutingTables.InitRoutingNeighbour` | axiom-init/axiom-discovery/axiom_routing.c:45-61 | The row and both rows of marks are cleared. |
| `InterfaceMasks.HasBit` | axiom-init/axiom-discovery/axiom_routing.c:101-101 | That interface i is in a mask, its i-th bit from the right, is that the mask shares a bit with 1 shifted left by i. |
| `RoutingTables.ComputeNeighboursRoute` | axiom-init/axiom-discovery/axiom_routing.c:68-111 | For every node, bit i of its mask is set exactly when interface i leads to it, and the count is that of the connected interfaces. |
| `RoutingTables.ScanNode` | axiom-init/axiom-discovery/axiom_routing.c:154-183 | Every neighbour of the node is covered afterwards; a new one takes over the node's route. |
| `RoutingTables.ScanLevel` | axiom-init/axiom-discovery/axiom_routing.c:147-185 | One round takes the covered set from one ball to the next, although the second row of marks is never cleared. |
| `RoutingTables.CopyMarks` | axiom-init/axiom-discovery/axiom_routing.c:187-190 | The second level becomes the first, and stays where it was. |
| `RoutingTables.ComputeRow` | axiom-init/axiom-discovery/axiom_routing.c:137-193 | The loop ends, and the row covers exactly the ball reached when the 8-bit count first meets the number of nodes. |
| `RoutingTables.ComputeRoutingTables` | axiom-init/axiom-discovery/axiom_routing.c:114-195 | The row of every node is so computed, and no other row changes. |
| `RouteTheorems.BitCloser` | axiom-init/axiom-discovery/axiom_routing.c:168-181 | Every bit of a non-empty mask leads to a neighbour one hop closer to the destination. |
| `RouteTheorems.ForwardCloser` | axiom-init/axiom-discovery/axiom_routing.c:145-193 | Whichever interface of the mask is picked, a packet gets one hop closer. |
| `RouteTheorems.ForwardOn` | axiom-init/axiom-discovery/axiom_routing.c:145-193 | By complete tables a packet can always be sent on. |
| `RouteTheorems.ShortestPath` | axiom-init/axiom-discovery/axiom_routing.c:26-40 | By complete tables every packet is at its destination after exactly the distance in hops, and not before. |
| `RouteTheorems.CompleteIff` | axiom-init/axiom-discovery/axiom_routing.c:145-193 | The search covers all nodes if and only if none is more than two hops away or more nodes lie at the greatest distance than there are surplus parallel cables. |
| `RouteTheorems.RowComplete` | axiom-init/axiom-discovery/axiom_routing.c:78-193 | The same for the computed row; in any case at most as many nodes lack a route as there are surplus cables. |
| `RouteTheorems.DoubleLineStopsEarly` | axiom-init/axiom-discovery/axiom_routing.c:193-193 | A connected network on which the search of node 1 ends before it reaches node 4. |
| `Delivery.SendRow` | axiom-init/axiom-discovery/axiom_routing.c:226-247 | The non-empty entries of a row are sent, in order. |
| `Delivery.ReceiveRoutingTables` | axiom-init/axiom-discovery/axiom_routing.c:309-373 | The receive loop reads the rows up to END_INFO into a cleared table and finds the greatest id, its own included. |
| `Delivery.RoundTrip` | axiom-init/axiom-discovery/axiom_routing.c:220-373 | A delivered row arrives unchanged; the slave learns the last id exactly when it is that node or has a route to it. |
| `Delivery.WaitRtReceived` | axiom-init/axiom-discovery/axiom_routing.c:270-307 | The wait ends at the first reply that makes the distinct ids as many as the slaves. |
| `Delivery.SetRoutingTable` | axiom-init/axiom-discovery/axiom_routing.c:392-536 | A board writes its table with the loopback entry, sends over each connected interface once, and takes as many messages. |
| `Delivery.WriteRoutingTable` | axiom-init/axiom-discovery/axiom_routing.c:378-390 | The registers become the table. |
| `InstallTheorems.DeliveredExact` | axiom-init/axiom-discovery/axiom_routing.c:309-373 | In every reachable state a slave that has replied holds its row at the master, and its greatest id is the last id exactly when it is that node or has a route to it. |
| `InstallTheorems.BarrierHolds` | axiom-init/axiom-discovery/axiom_discovery_node.c:107-139 | While any SET_ROUTING is under way or any board has written, no slave is still reading, every waiting slave is as in `DeliveredExact`, and no row or reply is under way. |
| `InstallTheorems.AtMostOnce` | axiom-init/axiom-discovery/axiom_routing.c:404-533 | At all times a board has written at most once, and each cable has carried at most one SET_ROUTING in each direction. |
| `InstallTheorems.AllInstalled` | axiom-init/axiom-discovery/axiom_routing.c:404-533 | At the end each board has written its row exactly once, each cable end has received exactly one message, and none is left. |
| `InstallTheorems.NeverBlocks` | axiom-init/axiom-discovery/axiom_routing.c:404-533 | In a reachable state no step is possible if and only if all boards are done and no message is left. |
| `InstallTheorems.EveryRunEnds` | axiom-init/axiom-discovery/axiom_routing.c:211-536 | No infinite run exists. |
| `InstallTheorems.SomeEnd` | axiom-init/axiom-discovery/axiom_routing.c:211-536 | For every plan a state in which all boards are done is reached. |
| `BringUp.DiscoveredFabric` | axiom-init/axiom-discovery/axiom_discovery_node.c:97-108 | What discovery leaves at the master is a connected topology with symmetric cables, as the routing computation needs. |
| `BringUp.PlanValid` | axiom-init/axiom-discovery/axiom_discovery_node.c:107-139 | The ids and computed rows are what delivery and flood need. |
| `BringUp.Installed` | axiom-init/axiom-discovery/axiom_discovery_node.c:84-139 | When bring-up has ended, every board's registers hold the row of its own id, with its loopback entry. |
| `EndToEnd.BallIsNear` | axiom-init/axiom-discovery/axiom_discovery_node.c:97-108 | Distances in the master's topology are distances in cables. |
| `EndToEnd.ComputeTables` | axiom-init/axiom-discovery/axiom_discovery_node.c:104-108 | Within what a byte can count, the computation on a connected topology yields the tables that the last stages need. |
| `EndToEnd.BringUpAll` | axiom-init/axiom-discovery/axiom_discovery_node.c:104-139 | After every discovery on a network whose boards and interfaces a byte can count, the master's stages reach the state in which every board is done. |
| `EndToEnd.ArrivesExactly` | axiom-init/axiom-discovery/axiom_discovery_node.c:84-139 | After bring-up on a topology that meets the completeness condition for every id, a packet that boards forward by their registers over the cables is at its board after exactly the physical distance, and not before. |
| `EndToEnd.SendsOnIff` | axiom-init/axiom-discovery/axiom_discovery_node.c:84-139 | After bring-up every board can send on every packet, and only over cables, if and only if the topology meets that condition for every id. |
| `OutputMerge.LinesConserve` | axiom-run/master.c:188-231 | The complete lines of a text and its rest are the text. |
| `OutputMerge.MarkReads` | axiom-run/master.c:201-201 | A mark is the node number in two decimal digits, tens first, followed by a colon or in braces. |
| `OutputMerge.FlagBits` | axiom-run/axiom-run.h:135-138 | Ident is the lowest bit of the flags and the alternate form the next, whatever the other flags are. |
| `OutputMerge.ChunkingIrrelevant` | axiom-run/master.c:188-231 | For any split into chunks and any interleaving, what is emitted for a node is the complete lines of its stream, and the rest is pending. |
| `OutputMerge.WriteLines` | axiom-run/master.c:196-219 | The loop over a chunk with a newline writes the complete lines of pending text and chunk, each with one mark (as in `MarkReads`, when `FlagBits` asks for it), and leaves the rest. |
| `OutputMerge.Merger.Emit` | axiom-run/master.c:188-231 | Either exactly the completed lines are emitted, or the pending text goes out bare because the line outgrew the buffer; either way no byte is lost or reordered. |
| `OutputMerge.Merger.EmitAll` | axiom-run/master.c:288-326 | In any run all bytes are conserved per node; without lines longer than the buffer the file is the merge of the completed lines, and every record is one whole line. |
| `OutputMerge.WholeIff` | axiom-run/master.c:188-231 | However the streams are cut and interleaved, only whole lines are emitted: if and only if no stream has a line, finished or not, longer than the buffer. |
| `OutputMerge.LongBreaks` | axiom-run/master.c:221-226 | A longer line, sent one character at a time, makes the pending text go out bare. |
| `OutputMerge.Merger.Flush` | axiom-run/master.c:153-164 | The leftovers are written in node order, each after its mark (as in `MarkReads`) when any flag is set and on its own line, and nothing stays pending. |
| `OutputMerge.FlushMarksIff` | axiom-run/master.c:157-157 | The flush treats leftovers like other lines if and only if the flags are all clear or ident is set, or nothing is left over. |
| `OutputMerge.FlushMarksExtra` | axiom-run/master.c:157-157 | With an exit mode as the only flag, the leftover "x" of node 0 is written as "00:x". |
| `Barrier.Service.Receive` | axiom-run/master.c:401-418 | The master's counters change at a valid id only, and the last arrival of a round releases. |
| `Barrier.Keeps` | axiom-run/master.c:396-412 | Every step of applications, master and slaves keeps each node outside, calling, counted or released, with the counter in agreement. |
| `Barrier.NobodyEarly` | axiom-run/lib/sync.c:64-90 | In every run no node is back from its k-th call before all have made their k-th call. |
| `Barrier.InStep` | axiom-run/lib/sync.c:33-90 | The completed rounds of two nodes differ by one at most. |
| `Barrier.ReleasesExact` | axiom-run/slave.c:259-267 | The master releases exactly at the multiples of the number of nodes, and no release finds a closed socket. |
| `Barrier.NoDeadlock` | axiom-run/master.c:396-412 | When every node is inside its call, something can be delivered. |
| `Barrier.Delivers` | axiom-run/slave.c:259-267 | Every delivery makes what is undelivered smaller, so the calls return. |
| `ExitStatus.ModeBits` | axiom-run/axiom-run.h:140-141 | The mode is the number in the three bits above the two output flags, whatever the other flags are. |
| `ExitStatus.ModeWords` | axiom-run/axiom-run.h:142-148 | Each word of the header gives its mode, with any other flags beside it. |
| `ExitStatus.StatusBits` | axiom-run/master.c:346-359 | A wait status made of a signal, the core bit and a code was an exit exactly when the signal is zero, and its code is that code. |
| `ExitStatus.KeepStatus` | axiom-run/master.c:345-388 | The nested tests keep, of the status so far and the new one, the one that the mode chooses from the two. |
| `ExitStatus.OutcomeFold` | axiom-run/master.c:345-389 | Keeping one of two at a time is choosing from all. |
| `ExitStatus.FoldExits` | axiom-run/master.c:327-395 | The kill is broadcast once, with the first status; the result is the one that the mode in the flags (as in `ModeWords`) chooses from all exits by their bits (as in `StatusBits`), or from a zero and all exits without the exit service. |
| `ExitStatus.OutcomeUnique` | axiom-run/axiom-run.h:140-148 | That choice is unique: zero without failures, the first, the first signalled, or the first greatest, first least, last or first. |
| `Spawn.SendJob` | axiom-init/lib/execvpe.c:67-120 | A caller sends filename, arguments, environment and directory, in order. |
| `Spawn.StreamFills` | axiom-init/axiom-spawn/axiom_spawn.c:127-178 | Whatever was in a slot, the whole stream leaves exactly the caller's job in it. |
| `Spawn.AnyStream` | axiom-init/axiom-spawn/axiom_spawn.c:124-178 | After any messages at all of a session that is new to a slot, the slot holds the last executable and directory and, in order, all arguments and variables since the last reset. |
| `Spawn.Daemon.NextSession` | axiom-init/axiom-session/axiom_session.c:38-45 | The lowest free session is taken, or none. |
| `Spawn.Daemon.FindSlot` | axiom-init/axiom-spawn/axiom_spawn.c:109-114 | The session's own slot is found, else the last empty one. |
| `Spawn.Daemon.Store` | axiom-init/axiom-spawn/axiom_spawn.c:124-178 | A slot takes the message, cleared first when it is new to the session or told to be. |
| `Spawn.Daemon.Receive` | axiom-init/axiom-spawn/axiom_spawn.c:90-204 | The in-place handling of a spawn message is the daemon's step in the runs below; for session number 32, whatever the test of it answers, it is ignored or served up to the assertion that stops the daemon. |
| `SpawnTheorems.KeptIff` | axiom-init/axiom-spawn/axiom_spawn.c:109-125 | A caller's first message is taken if and only if some slot is empty. |
| `SpawnTheorems.LaunchExactIff` | axiom-init/axiom-spawn/axiom_spawn.c:108-202 | Over any run with any number of callers, a program is run exactly as asked if and only if the caller's first message was taken. |
| `SpawnTheorems.SessionLostIff` | axiom-init/axiom-spawn/axiom_spawn.c:109-125 | The last message of a caller leaves its session taken, with nothing run, if and only if no slot is the session's own or empty. |
| `SpawnTheorems.LostForGood` | axiom-init/axiom-session/axiom_session.c:51-63 | Such a session stays taken in every continuation of the run. |
| `SpawnTheorems.NoSharing` | axiom-init/axiom-session/axiom_session.c:38-54 | Live callers have different sessions, and slots serve different sessions. |
| `SpawnTheorems.StrayIgnored` | axiom-init/axiom-spawn/axiom_spawn.c:102-106 | In every run a message whose session no live caller has changes nothing (for session number 32 see `Spawn.Daemon.Receive`). |
| `SpawnTheorems.AllGivenBack` | axiom-init/axiom-spawn/axiom_spawn.c:181-202 | When no caller is live, all slots are empty and all sessions free. |
| `SpawnTheorems.NoInterference` | axiom-init/axiom-spawn/axiom_spawn.c:108-202 | With at most four callers live at a time every program is run exactly as asked, and no caller is left behind. |
| `SpawnTheorems.FifthLost` | axiom-init/axiom-spawn/axiom_spawn.c:114-120 | A run of five callers in which the fifth loses its first message. |
| `SpawnTheorems.FifthSession` | axiom-init/axiom-spawn/axiom_spawn.c:114-120 | A run of five callers after which the fifth has sent everything, nothing was run for it, and its session is taken. |
| `Netperf.Shared.Next` | axiom-netperf/axiom-netperf-client.c:114-121 | A locked pass claims the next bytes, at most a payload and never past the total, or none. |
| `NetperfInv.NextInv` | axiom-netperf/axiom-netperf-client.c:506-587 | Every step of every thread and of the server keeps the invariant, whatever an earlier test left in the counters: bytes are counted once, at the server, on the way, or claimed. |
| `NetperfTheorems.BytesClaimedOnce` | axiom-netperf/axiom-netperf-client.c:105-163 | Every byte is claimed by exactly one claim, and the packets are the total over the payload, rounded up. |
| `NetperfTheorems.TailUnreachable` | axiom-netperf/axiom-netperf-client.c:222-272 | In every reachable state a thread that leaves its loop finds exactly the total sent, so the tail block is never entered. |
| `NetperfTheorems.RepliesOnce` | axiom-netperf/axiom-netperf-server.c:140-151 | The server replies at most once, for RAW and LONG exactly when it has the last byte; the test ends once. |
| `NetperfTheorems.DoneExact` | axiom-netperf/axiom-netperf-client.c:570-587 | When all threads are done, the test was ended and stopped once, the server has all bytes, and nothing is on the way. |
| `NetperfTheorems.EndsIff` | axiom-netperf/axiom-netperf-client.c:506-587 | A run that cannot go on has all threads done if and only if there were bytes to send or the test was RDMA. |
| `NetperfTheorems.NoBytesHang` | axiom-netperf/axiom-netperf-client.c:575-580 | A RAW test of no bytes by one thread, run to where it waits for ever. |
| `NetperfTheorems.EveryRunEnds` | axiom-netperf/axiom-netperf-client.c:506-587 | No run has more steps than the work it starts with. |
| `NetperfTheorems.EndAfterWritesIff` | axiom-netperf/axiom-netperf-client.c:347-399 | The end message of an RDMA test waits for all writes in every run if and only if there is one thread or nothing to write. |
| `NetperfTheorems.EarlyEnd` | axiom-netperf/axiom-netperf-client.c:347-399 | For any other RDMA test, a run that sends the end message too early. |
| `Traceroute.ProbeExact` | axiom-init/axiom-traceroute-reply/axiom_traceroute_reply.c:45-76 | By complete tables exactly the nodes on a shortest path answer, with the steps from one to the distance, and each answer is addressed to the node that asked. |
| `Traceroute.DistanceBound` | axiom-traceroute/axiom-traceroute.c:173-173 | A distance is less than the number of nodes, so the first bound of the loop is never met. |
| `Traceroute.CountAnswers` | axiom-traceroute/axiom-traceroute.c:173-188 | In any order of arrival the loop stops after the last answer, with their number. |
| `Traceroute.TraceExact` | axiom-traceroute/axiom-traceroute.c:157-190 | So for any path the hardware picks and any order of arrival of the answers sent to the node that asked, traceroute there reports the distance. |
| `SchedulerOption.Scheduler.EncodeText` | axiom_common_library/schedfuncs.c:62-78 | Exactly the known policies are printed; a text that is not cut is read back to the same option exactly when its parameters are below 2^63. |
| `SchedulerOption.ReadNumber` | axiom_common_library/schedfuncs.c:87-87 | A number is read as strtol does: spaces, sign, digits, clamped to 64 signed bits. |
| `SchedulerOption.Scheduler.ReadOne` | axiom_common_library/schedfuncs.c:119-142 | One parameter, with its unit when there is a deadline; what the units mean is `SchedulerGrammar.UnitsRead`. |
| `SchedulerOption.Scheduler.ReadPolicyText` | axiom_common_library/schedfuncs.c:84-116 | The policy by number, truncated to an int, or by the first name that fits; else a refusal. |
| `SchedulerOption.BareIsStandard` | axiom_common_library/schedfuncs.c:143-163 | A policy alone, by name or by number, is read as the printed option with the standard parameters. |
| `SchedulerOption.Scheduler.DecodeText` | axiom_common_library/schedfuncs.c:80-225 | The reader, with all its refusals and what they leave set, is the function that the round trip and the grammar are about. |
| `SchedulerOption.RoundTripIff` | axiom_common_library/schedfuncs.c:62-225 | For every policy, reading the printed option restores it if and only if the parameters used are below 2^63. |
| `SchedulerOption.BufferIff` | axiom-run/axiom-run.c:1154-1173 | With such parameters the option survives the 64-byte buffer if and only if its text fits. |
| `SchedulerOption.NiceLost` | axiom_common_library/schedfuncs.c:67-71 | The nice value -1 comes back as 2^63 - 1. |
| `SchedulerOption.DeadlineLost` | axiom-run/axiom-run.c:1154-1173 | A deadline option with three 19-digit parameters comes back changed. |
| `SchedulerGrammar.AcceptedIff` | axiom_common_library/schedfuncs.c:80-225 | A text is accepted if and only if it is a phrase: a policy by number or name, then up to three numbers, each with a unit of microseconds, milliseconds or seconds if it is a deadline, the first possibly a percentage. Its meaning is then set, whatever was set before. |
| `SchedulerGrammar.PhraseRead` | axiom_common_library/schedfuncs.c:80-225 | Every phrase is read whole and to its meaning. |
| `SchedulerGrammar.UnitsRead` | axiom_common_library/schedfuncs.c:53-53 | For every mix of units the three times of a deadline are set in microseconds: n, 1000 n or 1000000 n; a percentage becomes that share of the period. Larger values, which wrap, are in `PhraseRead`. |
| `SchedulerGrammar.NegativeRead` | axiom_common_library/schedfuncs.c:126-126 | A negative nice or priority value -n is set to 2^64 - n. |
| `SchedulerGrammar.RefusedSets` | axiom_common_library/schedfuncs.c:111-219 | A refused text sets policy zero if it starts with no policy; else the policy, the parameters before the fault and, where a number is missing, a zero in its place. |

## Left out

- The NIC library and its failures: sends always succeed, cables are first-in first-out, and the
  interface of a mask that a packet takes is any of them. The error returns of the stages are not modelled.
- Messages of delivery and reply are routed by the interim tables; that they arrive is proved in
  `InterimRouting`, and in `Install` they are queues to and from each board. The master there sends
  rows in the order of boards, not of ids; what each board receives is the same.
- `DiscoveryDevice.Device.Receive`: one message at a time; the loops that read messages until an
  expected one are the program counter of the step system.
- The numbers of nodes and interfaces: ids stay below the null node and masks hold 8 interfaces,
  because the source's ids and masks are 8 bits wide.
- Node masks of axiom-run: decoding of node lists, counting and broadcast loops. The protocols here
  speak of numbers of nodes and of nodes, not of the words that hold them.
- Barriers: the sockets and the size of the relayed datagram; the relay step and the rule that a
  release for a closed socket is lost are kept.
- Exit status: signals and the kill of the slaves' children.
- `Spawn.SendJob`: strings are taken to fit the message, as the source sends the untruncated length;
  broadcast and the release after a failed send are not modelled.
- Netperf: failed sends and their roll-back, times and throughput, the check of the RDMA magic number.
  The region that enters the test and the first pass of the RAW loop are two locked steps, which only
  adds interleavings.
- `NetperfTheorems.EarlyEnd`: the server's check of the written bytes, which could then fail, is not modelled.
- Traceroute to the node itself, and replies that do not arrive.
- Scheduling: the system call that applies the option, and what is printed for an unknown policy (the
  buffer then keeps its former text).
- The older netperf server of axiom-init, ping, send and receive tools, command lines, logging and
  the simulator of the tests.
