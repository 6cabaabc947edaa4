# Model of MPACK v2 packing, with parts of ACE 2 and libarchfpga

The project models the netlist and packing engine of MPACK v2 and proves what
its passes keep and what a finished packing means. Smaller parts model three
algorithms of ACE 2 and two of the VPR architecture library.

**The network.** Nodes are numbers. A node has a kind, ordered inputs and a
fan-out list; gates are opaque functions of their ordered inputs, buffers are
the identity, latches and primary inputs are sources. `NetOk` says that shapes
and arities are right and that, for all nodes u and v, u occurs in the inputs
of v as often as v occurs in the fan-out of u. `SameMeaning` says that every
node that survives an edit computes the same value, and every latch the same
next state, under every assignment of primary inputs and latch outputs.

**The passes.** Nets are built in two scans, the network is connected from the
nets, buffers, idle ports and hanging latches are removed, the result is
checked, buffers are put before crowded latches, and depths are marked. Each
pass is a method on mutable state that is proved equal to a function; lemmas
about that function say what the pass keeps and when it does what it is for.

**Packing.** `Ble` is the record of one logic block: BLE inputs, cell-port
muxes, cells and outputs. `Legal` says that used flags match node slots, each
used output selects a cell with its node or its latch's driver, every placed
node owns an output, used ports and pins correspond one to one and decode to
the pin's driver, no BLE input carries a net made inside, and no net is lost:
what a placed node drives, latches aside, is inside or the node is on an
output. `PackInv` is the invariant of a whole run over the growing list of
BLEs and the growing network. `PackBles.Pack` puts everything together and says
for each of its ends which input networks lead to it; `PackBles.PrintedIsTheNetwork`
says what the printed netlist is. Nothing is turned away without cause: a node gets
its outputs exactly if one is free, a pin its port exactly if some candidate serves,
a pattern is refused only if it is forbidden, unattractive or unsolvable, and the
packer gives up only if a blank BLE refuses every pattern of every gate that is
left. On an architecture with a roomy cell (`RoomyPacking.Generous`) it never gives
up, so in combinational mode it succeeds there exactly if no gate has two latches.

**Preconditions, stated once.** The combinational part is acyclic (`Acyclic`;
for depth marking, the whole network). Port names are distinct, no net is both
an input and an output port, and every net is an input port or driven
(`Posed`). Architecture candidates name existing ports. In normal mode no gate
is left with two latches when packing starts (`OneLatch`); in combinational mode
nothing is asked, and packing then succeeds only if it is so all the same. With
two latches on one gate a latch can become a pattern member
(`LatchMemberExactly` says exactly when), which the packer does not provide for.

**Where the code and its own words disagree.** The simulator's final assertions
are written as if they always held; for primary inputs they do not
(`PiAssertionsExactly`, `InputCountersExactly`). The outer recursion of the switching probability
multiplies by the path probability twice (`SwitchProbBounds` says when that
does no harm, `DoubleCountHalves` gives an input where it does). The removal of
hanging latches can leave one (`NoneHangsExactly`, `ChainStillHangs`), and the
check that follows then stops the program. With latches and no gate the
buffering pass reads in front of its gate array, and with wrong statistics the
removal of buffers leaves part of that array unwritten (`Pack`). Decoded attribute values are not the encoded ones when
they hold a vertical tab or form feed (`AttributeRoundTripExactly`). Logic without fanins is never
evaluated (`RefinesExactly`), and latches in a chain collapse when the earlier
one comes first in the list (`LatchesTogetherExactly`). The error exits for a
negative outside count and for a buffer with other fan-out than latches cannot
be reached (`MiniSatNoExit`), nor can that of the depth search once the check
has passed (`ReadyIsRead`). The comb count of a root that one of its own members
reads, possible in normal mode through a latch, is too small (`CombNumExactly`,
`RootCountTooSmall`); the root is placed all the same and takes at most one
output more (`SmallCountCosts`).

The files follow the program: `BlifNets`, `BuildNets` (blif_parser.c),
`NetworkSetup`, `SetupPasses` (setup_mpack.c), `LogicNetwork`, `BufferEdits`,
`BufferUndo`, `NetworkPasses`, `BufferedLatches`, `Lgkntwk`, `FreedNodes`, `HangingLatches`,
`LatchCleanup`, `PortCleanup`, `NetworkCheck`, `LocalDfs`, `DepthDfs` (lgkntwk_common.c), `BleDepth` (check_ble_arch.c),
`BleState`, `BleInfo` (mpack_util.c), `SatSpec`, `SatSolver`, `SolverFlags`,
`RouteChoices`, `LatchOutputs`, `OutputMarks`, `Ble*`, `CombCounts`, `PatternSpec`,
`PatternScale`, `PatternPick`, `PatternCounts`, `RootCounts`, `Packing`, `Refusals`,
`RoomyCells`, `PackRun`, `PackInvariant` (sat_api.c), `PatternPack`, `RoomyPacking`,
`PackBles` (packing.c, print_blif.c), `Ace*` (ACE 2), `Ez*` (ezxml.c), `Chunk*`
(util.c).
`dafny verify dfyconfig.toml` checks the whole project.

## Model

| member | source | states |
|---|---|---|
| BuildNets.NetList.Build | branches/MPACK_v2/SRC/blif_parser.c:522-820 | fails exactly when two cells drive one net; otherwise names are unique, each net has at most one driver, each cursor stops at its count, and each fan-out array lists exactly the input pins of that name in scan order |
| BuildNets.NetList.FirstScan | branches/MPACK_v2/SRC/blif_parser.c:546-700 | the counting scan over one list of cells: counts, drivers and uniqueness so far, or a net with two drivers |
| BuildNets.NetList.CountCell | branches/MPACK_v2/SRC/blif_parser.c:547-595 | one cell counted: refused exactly when its output net was driven before |
| BuildNets.NetList.SecondScan | branches/MPACK_v2/SRC/blif_parser.c:712-787 | the filling scan writes every pin at its net's cursor, in order |
| BlifNets.FillKeeps | branches/MPACK_v2/SRC/blif_parser.c:717-736 | in the second scan the net is always found and the cursor is always below its count, so neither error exit is reachable |
| BlifNets.CountUseKeeps | branches/MPACK_v2/SRC/blif_parser.c:550-568 | counting one input pin, with the net made at the list head when its name is new, keeps names unique and counts right |
| BlifNets.CountDriveKeeps | branches/MPACK_v2/SRC/blif_parser.c:570-595 | counting one output pin of an undriven net records its driver and keeps the rest |
| BuildNets.NetList.SpotName | branches/MPACK_v2/SRC/blif_parser.c:953-983 | the search returns the first net of that name, or none |
| BuildNets.NetList.SpotOrMake | branches/MPACK_v2/SRC/blif_parser.c:822-850 | a missing net is inserted behind the list head with the next number |
| BuildNets.NetList.MarkPorts | branches/MPACK_v2/SRC/blif_parser.c:985-1029 | each net gets the index of the last input and output port of its name, and nothing else changes |
| NetworkSetup.SetupAgrees | branches/MPACK_v2/SRC/setup_mpack.c:119-149 | the network built from the nets has agreeing fan-in and fan-out multiplicities, right arities, and lists that hold each gate and latch once |
| NetworkSetup.SetupPrepares | branches/MPACK_v2/SRC/setup_mpack.c:119-149 | without combinational cycles it is a network the passes and the packer can start from, nothing mapped |
| NetworkSetup.SourceExactly | branches/MPACK_v2/SRC/setup_mpack.c:369-387 | a pin hangs on a node exactly when that node drives the pin's net |
| NetworkSetup.CountSinks | branches/MPACK_v2/SRC/setup_mpack.c:388-399 | a node lists another as often as that one's pins name its net, plus the output port of the net |
| NetworkSetup.EdgesFromSource | branches/MPACK_v2/SRC/setup_mpack.c:340-400 | for every driving node and every node the two multiplicities are equal |
| SetupPasses.Wiring.Assign | branches/MPACK_v2/SRC/setup_mpack.c:119-149 | the passes in order leave exactly the specified pins and fan-outs, or exit exactly when a cell drives a primary input |
| SetupPasses.Wiring.AssignPorts | branches/MPACK_v2/SRC/setup_mpack.c:248-283 | the round over the nets connects every port of the network |
| SetupPasses.Wiring.AssignPort | branches/MPACK_v2/SRC/setup_mpack.c:670-771 | one net: input ports get its fan-out, output ports its driver; the exit for a driven input port |
| SetupPasses.Wiring.AssignCell | branches/MPACK_v2/SRC/setup_mpack.c:340-400 | one gate or latch: pins to the net's port or driver, fan-out to its readers and output port |
| SetupPasses.Wiring.PassOverPorts | branches/MPACK_v2/SRC/setup_mpack.c:406-450 | every pin that was left on an output port moves to what drives the port |
| SetupPasses.Wiring.ClearPoOutputs | branches/MPACK_v2/SRC/setup_mpack.c:235-246 | output ports end without fan-out, everything else is untouched |
| BufferEdits.AddBufKeepsAgreement | branches/MPACK_v2/SRC/lgkntwk_common.c:745-797 | putting a buffer before one pin keeps edge agreement and arities |
| BufferEdits.AddBufKeepsMeaning | branches/MPACK_v2/SRC/lgkntwk_common.c:745-797 | it changes no value and no latch's next state under any inputs and latch outputs, and creates no cycle |
| BufferEdits.BypassKeepsAgreement | branches/MPACK_v2/SRC/lgkntwk_common.c:241-270 | taking one buffer out, whatever it drives and how often, keeps edge agreement |
| BufferEdits.BypassKeepsMeaning | branches/MPACK_v2/SRC/lgkntwk_common.c:241-270 | it changes no surviving node's value or next state |
| BufferUndo.RemovingUndoesAdding | branches/MPACK_v2/SRC/lgkntwk_common.c:745-826 | removing the buffer just added gives every node its edges back, in place |
| BufferUndo.RemoveOneBufExactly | branches/MPACK_v2/SRC/lgkntwk_common.c:804-826 | the removal leaves a network in order exactly when the buffer drives this pin and nothing else |
| BufferUndo.RemoveOneBufKeepsMeaning | branches/MPACK_v2/SRC/lgkntwk_common.c:804-826 | and then no value changes |
| BufferUndo.RemoveBufAt | branches/MPACK_v2/SRC/lgkntwk_common.c:804-826 | the in-place edit does exactly this, and refuses a non-buffer |
| LgkntwkEdits.Lgkntwk.AddOneBuf | branches/MPACK_v2/SRC/lgkntwk_common.c:745-797 | the in-place edit leaves the specified network |
| LgkntwkEdits.Lgkntwk.EnterBufs | branches/MPACK_v2/SRC/lgkntwk_common.c:834-869 | the node's input buffers go to the head of the gate list and the end of the gate array, whose last entry is read before and must exist |
| LgkntwkEdits.Lgkntwk.BypassBuf | branches/MPACK_v2/SRC/lgkntwk_common.c:241-270 | the splice and the rewiring of every reader leave the specified network |
| NetworkPasses.RemoveBufsIsSound | branches/MPACK_v2/SRC/lgkntwk_common.c:177-294 | for any chains of buffers and any list order: all buffers gone, edges agree, lists right, every remaining node computes what it did |
| NetworkPasses.WithoutBufsOrder | branches/MPACK_v2/SRC/lgkntwk_common.c:211-286 | the gates that stay keep their order |
| LgkntwkEdits.Lgkntwk.RemoveAllBufs | branches/MPACK_v2/SRC/lgkntwk_common.c:177-294 | the pass does this in place; told from the statistics and the list, it ends clean, with one of its two error exits, or with an array whose tail nobody has written |
| NetworkPasses.AddBufLatchesIsSound | branches/MPACK_v2/SRC/lgkntwk_common.c:509-562 | on a buffer-free network the pass keeps all values, and afterwards every latch is driven by a gate, a buffer drives one latch only, and no gate drives both a latch and a buffer |
| BufferedLatches.BufferedExactly | branches/MPACK_v2/SRC/lgkntwk_common.c:517-552 | told from the network before: a latch moves behind a new buffer exactly if its driver is an input or a latch, or, strict, drives more than one thing, or, not strict, drives more non-latches than there are cells; any other keeps its driver; and the network grows by just that many nodes |
| BufferedLatches.HasBufferExactly | branches/MPACK_v2/SRC/lgkntwk_common.c:517-552 | on a buffer-free network these are the latches that a buffer drives afterwards |
| LgkntwkEdits.Lgkntwk.AddBufsBeforeLatches | branches/MPACK_v2/SRC/lgkntwk_common.c:509-562 | the pass in place; it adds as many nodes as there are latches whose driver is too wide; it reads in front of the gate array exactly when there are latches but no gate |
| LgkntwkEdits.Lgkntwk.WantsBuf | branches/MPACK_v2/SRC/lgkntwk_common.c:517-552 | true exactly if the driver is an input or a latch or its fan-out too wide, counted entry by entry |
| LgkntwkEdits.Lgkntwk.FanoutCombNum | branches/MPACK_v2/SRC/lgkntwk_common.c:495-504 | counts the fan-out entries that are no latches |
| HangingLatches.DropHangingIsSound | branches/MPACK_v2/SRC/lgkntwk_common.c:108-164 | the pass keeps agreement, lists and the meaning of every surviving node, and frees exactly the latches of Dropped |
| HangingLatches.DropsExactly | branches/MPACK_v2/SRC/lgkntwk_common.c:118-146 | told from the network before: a latch goes exactly if all that read it are latches that went earlier in the list; every other pin stays |
| HangingLatches.StillHangsExactly | branches/MPACK_v2/SRC/lgkntwk_common.c:118-146 | a latch hangs afterwards exactly if it was kept and all its readers went |
| HangingLatches.NoneHangsExactly | branches/MPACK_v2/SRC/lgkntwk_common.c:105-164 | the pass leaves no latch hanging exactly when every latch it keeps has a reader that it does not drop |
| HangingLatches.ReadersFirstIsEnough | branches/MPACK_v2/SRC/lgkntwk_common.c:105-164 | it leaves none when every latch that reads a latch stands before it in the list |
| HangingLatches.LatchesKeepOrder | branches/MPACK_v2/SRC/lgkntwk_common.c:118-161 | the latches that stay keep their order |
| HangingLatches.ChainStillHangs | branches/MPACK_v2/SRC/lgkntwk_common.c:118-146 | two chained latches: in one order the first one still hangs, in the other order both go |
| HangingLatches.DropLatchKeepsAgreement | branches/MPACK_v2/SRC/lgkntwk_common.c:118-141 | freeing one latch without fan-out keeps the edges in agreement |
| LatchCleanup.RemoveHangingLatches | branches/MPACK_v2/SRC/lgkntwk_common.c:108-164 | the in-place loop, which does not advance after a removal, computes exactly that and frees exactly those latches |
| PortCleanup.RemoveIsolatedPis | branches/MPACK_v2/SRC/lgkntwk_common.c:18-57 | exactly the input ports that drive nothing leave the list and are freed, the others stay in order |
| PortCleanup.RemoveIsolatedPos | branches/MPACK_v2/SRC/lgkntwk_common.c:62-103 | on a network whose edges agree no output port goes |
| PortCleanup.FreePisIsSound | branches/MPACK_v2/SRC/lgkntwk_common.c:18-57 | every node that stays computes what it did |
| FreedNodes.FreedMeaning | branches/MPACK_v2/SRC/lgkntwk_common.c:18-164 | freeing any set of nodes with the edge lists left in agreement changes no other node's value or next state |
| FreedNodes.FreedFanout | branches/MPACK_v2/SRC/lgkntwk_common.c:121-136 | and leaves every fan-out as it was without them |
| NetworkCheck.CheckNetwork | branches/MPACK_v2/SRC/lgkntwk_common.c:301-393 | the loops over the four lists reject exactly the networks that fail the check |
| NetworkCheck.CheckExactly | branches/MPACK_v2/SRC/lgkntwk_common.c:343-388 | on a cleaned network that is: a gate or latch drives nothing, or a gate without inputs is no constant |
| NetworkCheck.NoDeadEnd | branches/MPACK_v2/SRC/lgkntwk_common.c:441-444 | a network that passes cannot lead the depth search into its error exit |
| LatchCleanup.DropFromFanout | branches/MPACK_v2/SRC/lgkntwk_common.c:123-131 | the swap-to-the-end loop removes the one entry of the latch |
| LocalDfs.LocalDfsLgknds | branches/MPACK_v2/SRC/lgkntwk_common.c:606-672 | on members without cycles the relaxation ends, each depth is the longest chain to its node, and the (node, depth) pairs are permuted into ascending, hence topological, order |
| LocalDfs.Depths | branches/MPACK_v2/SRC/lgkntwk_common.c:627-657 | the rounds end with longest-chain lengths although each node is raised at most once a round |
| LocalDfs.BubbleSort | branches/MPACK_v2/SRC/lgkntwk_common.c:565-601 | ascending depths, by a permutation of the pairs, whatever the weights |
| LocalDfs.SettledIsLongest | branches/MPACK_v2/SRC/lgkntwk_common.c:627-651 | a fixpoint whose values are all reached is the longest-chain length |
| LocalDfs.SortedIsTopological | branches/MPACK_v2/SRC/lgkntwk_common.c:659-659 | sorting settled depths puts every driver before what it drives |
| BleDepth.DfsBleArch | branches/MPACK_v2/SRC/check_ble_arch.c:623-707 | the rounds over the cells end, and each depth is the longest chain of cells that can still feed it: the selected candidate of a used port, every candidate of an unused one |
| BleDepth.RelaxCell | branches/MPACK_v2/SRC/check_ble_arch.c:646-674 | one cell is raised at most once a round, and not at all only if no choice could raise it |
| BleDepth.FeedsExactly | branches/MPACK_v2/SRC/check_ble_arch.c:647-671 | a cell may feed another exactly if a used port of that one selects it or an unused port could |
| DepthDfs.MarkDepths | branches/MPACK_v2/SRC/lgkntwk_common.c:463-492 | on a network without cycles every depth ends as the longest walk from any primary input or constant generator, and the error exit is taken exactly when one of these leads to a node that is no output port and drives nothing |
| DepthDfs.DfsTree | branches/MPACK_v2/SRC/lgkntwk_common.c:399-454 | the recursion ends on every network, cyclic ones too; flags come back; labels stay walk lengths; what it changes is settled |
| SatSpec.BestOutIsCheapest | branches/MPACK_v2/SRC/sat_api.c:166-232 | the chosen output is free, reaches the cell, is cheapest with a mismatch counted double, and first among equals; none exactly if none fits |
| RouteChoices.BestOutExactly | branches/MPACK_v2/SRC/sat_api.c:166-232 | the same with the prices written out; none only if no free output has the cell among its candidates |
| LatchOutputs.SatOutputsExactly | branches/MPACK_v2/SRC/sat_api.c:241-328 | apart from the exits a node is placed exactly if an output with its cell among the candidates is free; it then takes one for itself if it drives something outside or has no latch to serve, and one for its latch if, besides its own, one is free: no more and no fewer |
| LatchOutputs.AllOutputsPlaces | branches/MPACK_v2/SRC/sat_api.c:1188-1218 | after all members: each one's first unmapped latch is on a sequential output of its cell, or the member is no buffer, drives something uncounted, and no output for its cell is free |
| BleLegality.SatOutputsGives | branches/MPACK_v2/SRC/sat_api.c:241-328 | a success places the node, takes only free outputs, each carrying the node or its first unmapped latch from this cell, and puts the node on an output when it drives anything outside |
| BleRecord.MapOutputs | branches/MPACK_v2/SRC/sat_api.c:241-328 | the branches on the record compute the specified outcome |
| BleRecord.AllocOut | branches/MPACK_v2/SRC/sat_api.c:166-232 | the scan over outputs makes the specified choice and writes that one slot |
| BleOutputs.AllOutputsGives | branches/MPACK_v2/SRC/sat_api.c:1188-1218 | root first, then the members in order: all placed, every output still right, nothing taken back |
| CombCounts.CombNumAgainstFanout | branches/MPACK_v2/SRC/sat_api.c:1433-1513 | the count never exceeds the fan-out, and equals it exactly when everything the node drives but latches will be in the BLE |
| CombCounts.CombNumExactly | branches/MPACK_v2/SRC/sat_api.c:1486-1513 | the count is the number of fan-out entries in the BLE exactly when no earlier member, nor the node itself, reads the node; otherwise it is smaller |
| PatternCounts.PatternCountsExact | branches/MPACK_v2/SRC/sat_api.c:1433-1513 | so it is exact for picked patterns: every member in combinational mode, every member but the root in normal mode |
| RootCounts.RootCountTooSmall | branches/MPACK_v2/SRC/sat_api.c:1541-1573 | a pattern of normal mode whose root drives nothing outside and yet has the count zero |
| RootCounts.SmallCountCosts | branches/MPACK_v2/SRC/sat_api.c:241-328 | a count that is too small matters only if the true one is the whole fan-out and a latch waits; then the node is placed in the same cases and takes at most one output more |
| CombCounts.MiniSatNoExit | branches/MPACK_v2/SRC/sat_api.c:279-285 | given edge agreement and buffers that feed latches only, no error exit of the solver can be taken |
| SatSolver.CountCombInBle | branches/MPACK_v2/SRC/sat_api.c:1433-1480 | the counts over the new nodes followed by the nodes already placed |
| SatSpec.BestPortIsCheapest | branches/MPACK_v2/SRC/sat_api.c:428-504 | the chosen port is unused, can receive the net, is cheapest with selections inside the BLE at a tenth, and first among equals; none exactly if none can |
| RouteChoices.RouteToExactly | branches/MPACK_v2/SRC/sat_api.c:367-420 | the setting found is the best candidate: the net's cell, then its output, then the first input that carries it, then the first free input; none only if no candidate serves |
| RouteChoices.BestPortExactly | branches/MPACK_v2/SRC/sat_api.c:428-504 | the cheapest unused port with its best setting, the prices written out; none only if no candidate of an unused port serves |
| RouteChoices.NextPinExactly | branches/MPACK_v2/SRC/sat_api.c:846-918 | the next pin is the first unrouted one whose driver sits in the highest cell; if none is driven from inside, the last unrouted one |
| SatSolver.TargetToPort | branches/MPACK_v2/SRC/sat_api.c:367-425 | a net made in the BLE comes from its cell or output and never through a BLE input; otherwise a used input that carries it, then a free one |
| SatSolver.SourceToDest | branches/MPACK_v2/SRC/sat_api.c:335-363 | the candidate of a port that is a given source, except a cell's first port on the cell itself |
| SatSolver.MapPin | branches/MPACK_v2/SRC/sat_api.c:428-504 | one pin routed on the record, or nothing changed |
| SatSolver.MapInputs | branches/MPACK_v2/SRC/sat_api.c:846-918 | pins in order of their driver's cell until all are routed or one fails |
| SatSolver.PickPin | branches/MPACK_v2/SRC/sat_api.c:863-880 | the unrouted pin whose driver sits in the highest cell |
| BleInputs.RouteInputsGives | branches/MPACK_v2/SRC/sat_api.c:846-918 | when all pins are routed, used ports and pins correspond one to one and each port delivers its pin's driver; other cells and used inputs are untouched |
| BleInputs.RemapFromGives | branches/MPACK_v2/SRC/sat_api.c:1235-1275 | connecting all placed nodes again routes every cell and keeps inputs carrying outside nets only |
| BleInputs.DeliversDecodes | branches/MPACK_v2/SRC/print_blif.c:106-119 | what a mux setting delivers is what the printer reads for it |
| BleLegal.LegalPortsDecode | branches/MPACK_v2/SRC/print_blif.c:96-129 | in a legal BLE every used port decodes to exactly the driver of its pin, every pin has a port, and no two ports share a pin |
| BleLegal.MiniSatCommits | branches/MPACK_v2/SRC/sat_api.c:1156-1315 | a success puts each new node in its cell, keeps the BLE legal and the other cells alone, and leaves no latch without a sequential output unless its driver is needed outside and every output for its cell is taken; no exit can be taken |
| BleLegal.BlankIsLegal | branches/MPACK_v2/SRC/mpack_util.c:221-288 | a new BLE is legal |
| SatSolver.MiniSatSolver | branches/MPACK_v2/SRC/sat_api.c:1156-1315 | all or nothing: the record becomes the specified one or stays exactly as it was |
| BleRecord.BleInfo.CopyFrom | branches/MPACK_v2/SRC/mpack_util.c:341-390 | afterwards the two records agree and share no array |
| BleRecord.BleInfo.constructor | branches/MPACK_v2/SRC/mpack_util.c:221-288 | all arrays blank, of the architecture's sizes |
| BleRecord.SpotCell | branches/MPACK_v2/SRC/sat_api.c:52-70 | the first cell that holds the node, or none |
| BleRecord.SpotOutput | branches/MPACK_v2/SRC/sat_api.c:72-102 | the first output that carries the node, or none |
| PatternPacking.IsBlank | branches/MPACK_v2/SRC/mpack_util.c:684-757 | true exactly for a record equal to a new one |
| PackRun.CommitProgress | branches/MPACK_v2/SRC/sat_api.c:925-982 | committing a member lowers (latches no buffer drives, unmapped gates) even when it creates a gate, and keeps the meaning of every node |
| PackRun.CommitMeaning | branches/MPACK_v2/SRC/sat_api.c:925-982 | marking outputs mapped, or buffering the last unmapped latch, changes no value |
| PackInvariant.CommitKeeps | branches/MPACK_v2/SRC/sat_api.c:1392-1398 | one committed member keeps the invariant of the whole run: every BLE legal, flags match cells, latches follow outputs |
| PackInvariant.SolvedKeeps | branches/MPACK_v2/SRC/sat_api.c:1338-1424 | replacing a BLE by a solved one keeps it, with the new members waiting for their flags |
| PackInvariant.LegalSame | branches/MPACK_v2/SRC/sat_api.c:925-982 | a BLE stays legal while the network changes around it: held nodes keep their pins, and a held node whose fan-out changed has an output |
| Packing.RunSatSolver | branches/MPACK_v2/SRC/sat_api.c:1338-1424 | it succeeds exactly if cells are found and the solver succeeds with them; a success maps every member, fills the cell, keeps the invariant and makes progress; a failure changes neither network nor BLE |
| Packing.MarkOutputsMapped | branches/MPACK_v2/SRC/sat_api.c:925-982 | the latch that leaves on an output gets its flags, else the last unmapped latch may get a buffer, else nothing |
| OutputMarks.MarkOutputsExactly | branches/MPACK_v2/SRC/sat_api.c:925-982 | the first unmapped latch of the fan-out that an output carries gets its flags; if there is none, the last unmapped one moves behind a new buffer, unless the node is a buffer or drives one; else nothing changes |
| Packing.CommitMembers | branches/MPACK_v2/SRC/sat_api.c:1392-1398 | the members' flags are set one by one under the invariant |
| PatternSpec.SatPredsAre | branches/MPACK_v2/SRC/sat_api.c:1523-1618 | the predecessors are exactly the candidates among the root's inputs, each once |
| PatternSpec.PredsExactly | branches/MPACK_v2/SRC/sat_api.c:1523-1618 | a gate becomes a predecessor exactly if it is unmapped and drives the root, directly or, in normal mode, through one latch |
| PatternSpec.PredsAreOpenGates | branches/MPACK_v2/SRC/sat_api.c:1523-1618 | while latches follow their drivers they are unmapped gates other than the root |
| PatternSpec.LatchMemberExactly | branches/MPACK_v2/SRC/sat_api.c:1541-1573 | a latch becomes a member exactly if, in normal mode, it is an unmapped input whose driver is mapped |
| PatternPick.SatType | branches/MPACK_v2/SRC/sat_api.c:1523-1618 | the predecessors in topological order |
| PatternPick.PickPatternFitBle | branches/MPACK_v2/SRC/sat_api.c:2297-2410 | every pattern of every unmapped gate up to the size limit is weighed against the answer: none untried and not forbidden is better, and zero means that none weighs more than -1; a flag is set exactly for a forbidden pattern; the answer is such a pattern, untried, and beats having none |
| PatternPick.TryRoot | branches/MPACK_v2/SRC/sat_api.c:2332-2403 | the same for one gate, from the largest size down |
| PatternScale.Displaced | branches/MPACK_v2/SRC/sat_api.c:2386-2402 | a pattern takes the choice's place for a higher weight, or an equal one and no smaller path weight where ties count; what was not better than the old choice is not better than the new one |
| PatternPacking.PickCell | branches/MPACK_v2/SRC/check_ble_arch.c:1053-1080 | the first untried unused cell of highest priority, or none |
| PatternPacking.AllMapped | branches/MPACK_v2/SRC/packing.c:106-150 | true exactly when every gate and latch is mapped |
| PatternPacking.ResetTried | branches/MPACK_v2/SRC/lgkntwk_common.c:1809-1835 | one unset flag per pattern size for every gate |
| PatternPacking.FillCell | branches/MPACK_v2/SRC/packing.c:368-400 | patterns are tried until one fits and fills the cell, or every unmapped gate has been turned away at every size: forbidden, weighing no more than -1, or refused by the solver; it ends because each (gate, size) is tried once |
| PatternPacking.FillBle | branches/MPACK_v2/SRC/packing.c:346-407 | it ends because each cell is tried once; then the measure fell, or BLE and network are as they were and every unused cell refuses |
| PatternPacking.InvGivesPacked | branches/MPACK_v2/SRC/packing.c:329-425 | exact cover: with everything flagged, every gate sits in exactly one cell of one BLE, every cell holds a gate, every latch leaves its BLE on an output |
| PatternPacking.PatternPack | branches/MPACK_v2/SRC/packing.c:307-425 | the outer loop ends although packing creates gates; on success nothing is left out, every BLE is legal, every node computes what it did, and no gate had two latches at the start; it gives up only with something unmapped and when every cell of a blank BLE refuses every gate that is left |
| PackRun.PackedHasOneLatch | branches/MPACK_v2/SRC/sat_api.c:942-979 | of two latches on a gate one is never mapped, in either mode |
| RoomyCells.PatternFits | branches/MPACK_v2/SRC/sat_api.c:1156-1315 | the solver places every sorted choice of members into cells of which each has 2k - 1 free outputs for k members, whose ports, no fewer than the pins of their member, see every input, output and other member, with an input for every pin |
| RoomyCells.GateFits | branches/MPACK_v2/SRC/sat_api.c:1156-1315 | on a blank BLE the solver places any gate in a cell that an output can select and whose ports, no fewer than the gate's pins, see every input and output, with no fewer inputs |
| RoomyPacking.NothingLeft | branches/MPACK_v2/SRC/packing.c:329-425 | so where such a cell exists and every gate may seed a BLE, giving up would mean that everything is packed |
| PackBles.PassesEstablishInvariant | branches/MPACK_v2/SRC/packing.c:35-51 | the passes turn any well-formed unmapped network into one that meets the packer's invariant, keeping its meaning |
| PackBles.PrintedIsTheNetwork | branches/MPACK_v2/SRC/print_blif.c:94-129 | for a finished packing each gate has exactly one cell line in the whole file, and the nets written at its pins are its inputs, pin by pin |
| PackBles.Clean | branches/MPACK_v2/SRC/packing.c:35-42 | the cleaning passes in their order, in place, with the ends of the first one |
| PackBles.Prepare | branches/MPACK_v2/SRC/packing.c:43-56 | the check, the buffers and the depths: rejected exactly if a gate or latch drives nothing or a gate without inputs is no constant; on a network without cycles the depths are the longest walks |
| PackBles.ReadyIsRead | branches/MPACK_v2/SRC/packing.c:56-56 | after a passed check the depth search cannot exit |
| PackBles.Pack | branches/MPACK_v2/SRC/packing.c:20-99 | from the input network to the result: exact cover, legal BLEs and unchanged meaning, or one of the other ends, each with the exact condition on the input network but for the one where nothing fits, which cannot be reached with a roomy cell and at most one latch on a gate |
| AceRun.RunIsFaithful | branches/vpr7_rram/ace2/sim.c:279-326 | in every cycle of every run inputs have their stream's value, latch outputs what fed them a cycle before, logic its function's value, a status of no change is true, and the counters are those of the history |
| AceReference.AgreesWithReference | branches/vpr7_rram/ace2/sim.c:279-310 | event-driven simulation equals evaluating everything, in every cycle of every run |
| AceReference.RefinesExactly | branches/vpr7_rram/ace2/sim.c:143-165 | all values are right in all cycles of all runs exactly when logic that depends on no input and no latch computes zero |
| AceReference.ConstantOneStaysZero | branches/vpr7_rram/ace2/sim.c:143-165 | a constant one without fanins keeps the value zero |
| AceRefines.EvaluationIsRight | branches/vpr7_rram/ace2/sim.c:167-240 | one pass in topological order gives every object its function's value and the right status and counters |
| AceRefines.LatchesTogetherExactly | branches/vpr7_rram/ace2/sim.c:242-277 | the latch loop acts as one clock edge on every state exactly when no latch is fed by an earlier latch of the list that does not feed itself |
| AceCounts.TogglesAreBounded | branches/vpr7_rram/ace2/sim.c:321-322 | toggles are at most twice the ones and twice the zeros of any history |
| AceReference.LogicCountersBounded | branches/vpr7_rram/ace2/sim.c:312-326 | the final counters of a logic node are those of its history and meet all final assertions |
| AceCounts.PiAssertionsExactly | branches/vpr7_rram/ace2/sim.c:312-326 | counters of an input's history trip the final assertions exactly when it starts and ends with one, never holds zero for two cycles, and is shorter than 100000 |
| AceReference.InputCountersExactly | branches/vpr7_rram/ace2/sim.c:279-326 | after any run an input's record counts its stream, and the final assertions fail on it exactly for those streams |
| AceCounts.PiAssertionFails | branches/vpr7_rram/ace2/sim.c:18-28 | the one-cycle stream of a single one does |
| AceSim.Simulator.GetPiValues | branches/vpr7_rram/ace2/sim.c:6-109 | the input phase on the objects |
| AceSim.Simulator.GetFaninStatus | branches/vpr7_rram/ace2/sim.c:143-165 | undefined before new before old |
| AceSim.Simulator.GetFaninValues | branches/vpr7_rram/ace2/sim.c:111-141 | the current values of the fanins, in order, or nothing when none is new |
| AceSim.Simulator.EvaluateOne | branches/vpr7_rram/ace2/sim.c:176-239 | one object evaluated, or passed over when its fanins are old |
| AceSim.Simulator.EvaluateCircuit | branches/vpr7_rram/ace2/sim.c:167-240 | the pass over the order |
| AceSim.Simulator.UpdateFFs | branches/vpr7_rram/ace2/sim.c:242-277 | the loop over latches, each copying the feeding object's record three times |
| AceSim.Simulator.SimActivities | branches/vpr7_rram/ace2/sim.c:279-310 | the cycles in a row from the initial state |
| AceCycle.CycleSearch.InCycle | branches/vpr7_rram/ace2/cycle.c:4-45 | true only if the target is reached by a non-empty fanin path; on false everything newly flagged has only flagged fanins, none the target; ends because flags grow |
| AceCycle.CycleSearch.LatchesInCycles | branches/vpr7_rram/ace2/cycle.c:47-74 | exactly the latches that reach themselves, in order |
| AceCycle.NeverReaches | branches/vpr7_rram/ace2/cycle.c:34-45 | a closed flagged set cannot contain a path to the target |
| AceBdd.TraversalIsTheSum | branches/vpr7_rram/ace2/bdd.c:158-228 | on a diagram that reads no variable twice on a path the traversal equals the sum over all assignments of the product of weights where the diagram has the phase |
| AceBdd.OrderedReadsOnce | branches/vpr7_rram/ace2/bdd.c:158-228 | every ordered diagram is such a diagram |
| AceBdd.Visited.CubeProbRecur | branches/vpr7_rram/ace2/bdd.c:158-228 | looking results up in the visited table changes none of them |
| AceBdd.LiteralsMean | branches/vpr7_rram/ace2/bdd.c:207-219 | an input that was one falls with its probability of falling, one that was zero rises with that of rising, an unknown one is one with its static probability |
| AceBdd.CubeSwitchProb | branches/vpr7_rram/ace2/bdd.c:230-243 | the exhaustive sum, between zero and one |
| AceBdd.CubeProbIsUnit | branches/vpr7_rram/ace2/bdd.c:158-228 | probabilities in, a probability out |
| AceBdd.PhasesSumToOne | branches/vpr7_rram/ace2/bdd.c:158-228 | the two phases sum to one |
| AceBdd.SwitchProbBounds | branches/vpr7_rram/ace2/bdd.c:245-310 | the outer recursion is non-negative, at most the path-weighted sum and at most the square of its path probability; it is the path-weighted sum exactly when, told from the fanins' probabilities and the diagrams, every contributing path is certain, impossible or followed by no switch |
| AceBdd.NeverMeans | branches/vpr7_rram/ace2/bdd.c:158-228 | no switch follows exactly when no assignment that has a chance gives the phase |
| AceBdd.NeverExactly | branches/vpr7_rram/ace2/bdd.c:158-228 | and exactly then the traversal yields zero |
| AceBdd.SwitchProbRecur | branches/vpr7_rram/ace2/bdd.c:245-310 | computes that recursion, multiplying by the path probability twice |
| AceBdd.DoubleCountHalves | branches/vpr7_rram/ace2/bdd.c:259-274 | a buffer of an input that is one half of the time gets half the path-weighted probability, in both phases |
| AceSwitch.PathSumIsTotal | branches/vpr7_rram/ace2/bdd.c:245-310 | counted once, the path probabilities give the sum over all 2^n present assignments without the phase of their probability times that of the phase next, given what was read of the assignment |
| EzRoundTrip.TextRoundTrip | branches/vpr7_rram/libarchfpga/ezxml.c:194-271 | decoding encoded character content gives every text back, up to its first NUL |
| EzRoundTrip.AttributeRoundTripExactly | branches/vpr7_rram/libarchfpga/ezxml.c:194-271 | attribute values come back exactly when they hold no vertical tab and no form feed, which become spaces |
| EzRoundTrip.XmlRoundTrip | branches/vpr7_rram/libarchfpga/ezxml.c:857-895 | so all characters of section 2.2 of XML 1.0 that fit a byte survive in both modes |
| EzEscapes.EncodedIsEscaped | branches/vpr7_rram/libarchfpga/ezxml.c:857-895 | the output holds no angle bracket and no CR, in attributes no quote, newline or tab either, and every ampersand in it starts one of the seven references the encoder writes |
| EzEscapes.PlainExactly | branches/vpr7_rram/libarchfpga/ezxml.c:865-891 | a text is its own encoding exactly if it has no NUL, no ampersand and nothing of these |
| EzEscapes.ReferenceDecodes | branches/vpr7_rram/libarchfpga/ezxml.c:213-233 | every decimal or hexadecimal reference up to 10FFFF decodes to the character of its number, in the bytes of section 3 of RFC 3629 |
| EzEscapes.PredefinedDecode | branches/vpr7_rram/libarchfpga/ezxml.c:1075-1083 | the five predefined entities decode to their characters |
| EzLiterals.LiteralStays | branches/vpr7_rram/libarchfpga/ezxml.c:208-260 | text without an ampersand, and all of a cdata section, keeps its characters, save that white space in attribute values becomes a space |
| EzLiterals.UnknownStays | branches/vpr7_rram/libarchfpga/ezxml.c:235-257 | an ampersand before neither # nor one of the five names stays |
| EzLiterals.BrokenStays | branches/vpr7_rram/libarchfpga/ezxml.c:213-222 | the ampersand of a number that is zero, or not closed by a semicolon, stays |
| EzLiterals.LineEnds | branches/vpr7_rram/libarchfpga/ezxml.c:199-206 | CR and CR LF become one newline each, and what comes before and after them is kept |
| EzRoundTrip.TwoSteps | branches/vpr7_rram/libarchfpga/ezxml.c:1075-1083 | a predefined entity becomes a character reference and then the character, whatever follows |
| EzRoundTrip.LinesFailExactly | branches/vpr7_rram/libarchfpga/ezxml.c:199-206 | the line-ending pass runs past the end exactly for texts that end with CR or CR LF |
| EzEntities.EntityShrinks | branches/vpr7_rram/libarchfpga/ezxml.c:235-252 | replacing an entity leaves fewer plain ampersands, so decoding ends |
| EzEntities.Ampencode | branches/vpr7_rram/libarchfpga/ezxml.c:857-895 | the loop appends the encoding |
| EzEntities.EzDecode | branches/vpr7_rram/libarchfpga/ezxml.c:194-271 | both passes over one buffer compute the decoding |
| EzEntities.EndLines | branches/vpr7_rram/libarchfpga/ezxml.c:199-206 | the first pass in the buffer |
| EzUtf8.PayloadCountIsRight | branches/vpr7_rram/libarchfpga/ezxml.c:563-565 | (bits - 2) / 5 is the number of continuation bytes for every number of up to 31 bits |
| EzUtf8.WrittenIsStandard | branches/vpr7_rram/libarchfpga/ezxml.c:560-569 | the bytes written for every code point are those of section 3 of RFC 3629 |
| EzUtf8.ReadWritten | branches/vpr7_rram/libarchfpga/ezxml.c:560-569 | reading the bytes back gives the same code points |
| EzUtf8.WriteNumber | branches/vpr7_rram/libarchfpga/ezxml.c:560-569 | the counting and shifting loops write those bytes |
| EzUtf16.ConvertsEveryText | branches/vpr7_rram/libarchfpga/ezxml.c:536-572 | well-formed UTF-16 of either byte order becomes the standard UTF-8 of the same scalar values |
| EzUtf16.Str2Utf8 | branches/vpr7_rram/libarchfpga/ezxml.c:536-572 | the loop computes the conversion, and none without a byte order mark |
| EzUtf16.SurrogateSwallows | branches/vpr7_rram/libarchfpga/ezxml.c:551-559 | any surrogate unit, low or high, takes whatever unit follows as its low half |
| EzUtf16.LastSurrogate | branches/vpr7_rram/libarchfpga/ezxml.c:551-569 | with no unit after it the surrogate itself is written out |
| EzUtf16.SwallowsLikeAPair | branches/vpr7_rram/libarchfpga/ezxml.c:551-559 | a broken pair is read as the pair with the same low ten bits in both halves |
| ChunkMemory.RunThenFree | branches/vpr7_rram/libarchfpga/util.c:183-287 | for any positive requests: answers aligned, inside their block and disjoint, the rest never negative, and freeing leaves no block unfreed and none freed twice |
| ChunkMemory.MallocKeeps | branches/vpr7_rram/libarchfpga/util.c:183-268 | one request keeps the invariant |
| ChunkMemory.Fits | branches/vpr7_rram/libarchfpga/util.c:255-262 | rounding up fits because what is left is a multiple of the alignment |
| ChunkEconomy.FitsOpen | branches/vpr7_rram/libarchfpga/util.c:255-266 | a request that fits the open chunk gets its next bytes and adds no block |
| ChunkEconomy.FitsNot | branches/vpr7_rram/libarchfpga/util.c:211-252 | one that does not adds one block, of its size or of a chunk |
| ChunkEconomy.RunIsEconomical | branches/vpr7_rram/libarchfpga/util.c:183-268 | over a run at most 96 bytes for every block but one are lost, and small requests take no more chunks than they fill but for that |
| ChunkMemory.FreedExactlyOnce | branches/vpr7_rram/libarchfpga/util.c:270-287 | every block ever allocated is freed exactly once |
| ChunkMemory.ChunkInfo.Alloc | branches/vpr7_rram/libarchfpga/util.c:183-268 | the branches on the fields compute the specified answer and state |
| ChunkMemory.ChunkInfo.FreeAll | branches/vpr7_rram/libarchfpga/util.c:270-287 | the loop frees the list in order and resets the fields |
| ChunkMemory.MallocAccounted | branches/vpr7_rram/libarchfpga/util.c:289-303 | putting a new block at the head keeps every block on the list once, or off it and freed once |

## Left out

- PackBles.Pack: where the source reads outside of what was written (no gate, unwritten tail) the model stops; what the program does then is not said.
- PackBles.Pack: the error exit for gates without inputs that are no LUT and no constant depends on a parameter, since node types other than buffer, latch and port are one kind here.
- The branch for pins that are not logically equivalent, which initialisation never selects, and the statistics of `build_nets`.
- File reading, option parsing, statistics, timing and all free routines: plumbing.
- Attraction, weights, priorities and path-affect numbers are parameters (`Advice`) and may be any functions, except that attraction does not see the flags of tried patterns; which pattern is chosen for given attractions is modelled.
- `check_sat` and `local_dfs_ble_cell` look ports up by array position; that they name different unused cells is the requirement `Allots` of the run.
- `sat_pack` and the seed packer: the same solver under a simpler loop. The root packer `pick_seed` is not modelled.
- Packing.RunSatSolver: cells come from a function of the BLE, the cell and the pattern size, not from the architecture search.
- PatternPacking.PatternPack: finished BLEs are kept as values in a sequence, not as a linked list of records.
- LgkntwkEdits.Lgkntwk.AddOneBuf: net names, edges, weights and list indices of the new buffer are not part of the network.
- The arrays of a node (inputs, fan-out) and of a BLE's cell ports are sequences that are reassigned; aliasing of two such arrays is not modelled.
- SatSolver.CountCombInBle: each count is taken in its own sweep, where the source fills all counts in one.
- Libgate netlists: setup is modelled for LUT netlists (gates and latches); net building covers libgates too.
- SetupPasses.Wiring.AssignPorts: nets that are neither driven nor an input port are excluded, since the source then reads through a null table.
- The sort of BLE cells by depth is the sort of gates without weights; "latches only on sequential outputs" is no invariant of the code, which only charges a mismatch.
- AceSim.Simulator.GetPiValues: streams are booleans; random inputs are covered as arbitrary streams, the drawing itself is not modelled.
- AceBdd.CubeSwitchProb: exact reals and diagrams without complemented edges; rounding and CUDD itself are not modelled.
- EzEntities.EzDecode: parameter-entity mode, non-CDATA attribute mode, user entity tables and reallocation are left out; a character reference of 2^41 or more shifts by a negative count in C and is taken as zero here.
- EzEntities.EndLines: the source reads past the terminator for texts that end with CR; the model stops there.
- ezxml tree surgery, DTDs, the XML-to-struct readers, SPICE settings, GenUI and the Python scripts.
- ChunkMemory.ChunkInfo.Alloc: a failing malloc and the debugging output are left out.
