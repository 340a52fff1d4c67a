# Verification of the ODIN II, ACE2 and HPower algorithms

A Dafny 4.11 model of the parts of this repository that transform hardware or compute over it, with proofs of what they
are for. `dafny verify dfyconfig.toml` checks everything.

| part | modules |
|---|---|
| Statements of a sequential always block to one-hot muxes and flip-flops | Names, Signals, MuxMerge, MuxLoop, StatementCompiler, RegisteredAlways |
| Splitting memories by depth, into banks and output multiplexers | BankedRam, OutputWiring, MemoryDepth, MemorySplitter |
| Splitting memories by width, over pins, nodes and nets that point at one another | PinGraph, SlicePlan, SliceStore, WidthSplit, RamSlices, SlicedRam |
| Both splits after one another | SlicedBanks |
| Event-driven simulation | Circuits, LatchUpdates, EventSim, SimCounters |
| Soft multipliers down to adder cells; the hard-multiplier work list | SoftAdder, SoftMultiplier, MultWorklist |
| Probabilities over decision diagrams and packed cubes | Expectation, Cube, BddProb, SwitchLoss |
| Truth-table probability, Boolean difference, transition density | Density |
| Levelisation, loop check, latches on cycles | Netlist, Levelize, LevelPaths, LoopCheck, LatchCycles |
| XML text encoding and decoding | XmlDecode, XmlReferences, XmlEncode |
| Mux counting and power accounting | MuxCount, PowerUse, PowerSites, PowerGrid, PowerAmounts, PowerLedger, PowerAccounts |
| Shared arithmetic | Binary, Division, Options |

Code that changes state is modelled by methods, over arrays, or over classes whose fields the methods reassign; each method
is proved equal to a specification function, or to keep an invariant, and the theorems are about those. Pointers among pins,
nodes and nets are indices into a store. Floating-point quantities are reals.

Six results are about conditions that the code leaves to its callers or gets only partly right:

- A case statement is compiled correctly exactly when its labels fit the selector and are distinct and no selector value is
  left without a branch (`StatementCompiler.HeaderExact`); a name assigned twice is an error exactly when some path
  assigns it twice (`RegisteredAlways.TwiceIffPath`).
- Latches are updated one after the other, which is a simultaneous update exactly for circuits whose latches are listed in
  a suitable order (`LatchUpdates.LatchOrderExact`). An initial 1 of a primary input counts as a toggle, which the closing
  assertion does not always tolerate (`SimCounters.AssertionsExact`, and `SimCounters.AssertionsFail` for an input).
- The switching probability multiplies by the path's probability twice. It is too low for every function that is not
  constant, over inputs of which nothing is certain (`SwitchLoss.SwitchAlwaysShort`); in general it is right exactly when
  no path loses anything by that (`SwitchLoss.SwitchUnderestimates`).
- The work list of hard multipliers exchanges the block's sizes for every multiplier with a < b, and does not exchange them
  back. With a block that is not square it splits some that fit, exactly those of `MultWorklist.NoneSplitExact`.
- Line-end normalization steps over the end of a text that ends in CR, unless an earlier CR LF has left a second
  terminator behind the first (`XmlDecode.NormalizeLines`).
- Attribute encoding leaves vertical tabs and form feeds alone, but decoding turns them into spaces
  (`XmlEncode.RoundTrip`).

## Model

| member | source | states |
|---|---|---|
| Signals.SortFacts | HPowerEstimator/ODIN_II/SRC/netlist_utils.c:629-638 | Sorting a signal list by name yields a sorted permutation and keeps, for every name, how many pins it has and which comes first |
| Names.LessEqExact | HPowerEstimator/ODIN_II/SRC/netlist_utils.c:629-634 | Names are ordered as the sort compares them: a prefix comes first, and otherwise the first character that differs decides |
| MuxLoop.CombineLists | HPowerEstimator/ODIN_II/SRC/netlist_utils.c:607-621 | Combining lists is their concatenation, in order |
| MuxMerge.FirstNameFacts | HPowerEstimator/ODIN_II/SRC/netlist_create_from_ast.c:2858-2863 | The next column is for a name at the head of some branch list, and no head is smaller |
| MuxLoop.SkipMatched | HPowerEstimator/ODIN_II/SRC/netlist_create_from_ast.c:2903-2935 | Skipping as many combined pins as branches that had the name skips exactly the pins of that name that were consumed |
| MuxLoop.MuxNode.AttachColumn | HPowerEstimator/ODIN_II/SRC/netlist_create_from_ast.c:2889-2933 | One pass over the branches consumes the head of every branch that has the name, fills the other slots with the implied signal, counts the consumed pins, and touches no other slot |
| MuxLoop.MuxNode.NextColumn | HPowerEstimator/ODIN_II/SRC/netlist_create_from_ast.c:2862-2938 | Every round consumes at least one combined pin, so the loop ends, and adds one column |
| MuxLoop.MuxNode.CreateMuxStatements | HPowerEstimator/ODIN_II/SRC/netlist_create_from_ast.c:2846-2948 | The in-place merge returns one output per merged column and appends exactly the columns' slots to the mux, one port per column as wide as the number of branches |
| MuxMerge.MergeLookup | HPowerEstimator/ODIN_II/SRC/netlist_create_from_ast.c:2846-2948 | For every name, the merged output is the one-hot mux of what each branch drives on it, with the register itself for branches that do not, and nothing for a name no branch drives |
| MuxMerge.MergeCount | HPowerEstimator/ODIN_II/SRC/netlist_create_from_ast.c:2846-2948 | A name gets as many columns as the branch that drives it most often |
| MuxMerge.MergeSorted | HPowerEstimator/ODIN_II/SRC/netlist_create_from_ast.c:2846-2948 | Columns come out in name order, at most one per branch pin, starting with the smallest name |
| MuxLoop.MergeStrict | HPowerEstimator/ODIN_II/SRC/netlist_create_from_ast.c:2855-2938 | When no branch drives a name twice, the columns are in strictly increasing order of their names |
| MuxLoop.MergeSlots | HPowerEstimator/ODIN_II/SRC/netlist_create_from_ast.c:2855-2938 | With distinct names per branch there is one column per distinct name, and slot in_index*n+j holds branch j's signal for that column's name |
| StatementCompiler.Expand | HPowerEstimator/ODIN_II/SRC/netlist_create_from_ast.c:2589-2841 | The recursive expansion of a statement, with its loops over case items and branches, builds the list that Compile specifies |
| StatementCompiler.ExpandCaseControls | HPowerEstimator/ODIN_II/SRC/netlist_create_from_ast.c:2739-2802 | Each case item gets an equality against the selector at the selector's width, and a default the complement of all of them |
| StatementCompiler.IfControlsEval | HPowerEstimator/ODIN_II/SRC/netlist_create_from_ast.c:2613-2668 | The two select pins of an if are the condition being non-zero and its complement |
| StatementCompiler.HeaderSelects | HPowerEstimator/ODIN_II/SRC/netlist_create_from_ast.c:2739-2802 | For a good case header exactly one control is on, and it is the chosen branch's |
| StatementCompiler.HeaderExact | HPowerEstimator/ODIN_II/SRC/netlist_create_from_ast.c:2739-2802 | The generated one-hot select agrees with the case statement for every selector value, data and held value if and only if labels fit the selector, are distinct, and a default or full coverage leaves no value without a branch |
| StatementCompiler.BadHeader | HPowerEstimator/ODIN_II/SRC/netlist_create_from_ast.c:2739-2802 | For any other header, a selector value on which the mux and the case statement disagree |
| StatementCompiler.CompileCorrect | HPowerEstimator/ODIN_II/SRC/netlist_create_from_ast.c:2589-2948 | For every nested if, case and block with good case headers and no doubly driven name, each register's next value is what running the non-blocking assignments gives it, and an unassigned register holds |
| StatementCompiler.BlockCorrect | HPowerEstimator/ODIN_II/SRC/netlist_create_from_ast.c:642-643 | The same for the combined list of a block |
| RegisteredAlways.PathBound | HPowerEstimator/ODIN_II/SRC/netlist_create_from_ast.c:2855-2938 | No path through a statement assigns a name more often than the expansion drives it |
| RegisteredAlways.PathAttained | HPowerEstimator/ODIN_II/SRC/netlist_create_from_ast.c:2855-2938 | Some path assigns a name exactly as often as the expansion drives it |
| RegisteredAlways.TwiceIffPath | HPowerEstimator/ODIN_II/SRC/netlist_create_from_ast.c:2036-2047 | The expansion drives a name, or drives it twice, if and only if some path through the statement assigns it, or assigns it twice |
| RegisteredAlways.TerminateRegistered | HPowerEstimator/ODIN_II/SRC/netlist_create_from_ast.c:2013-2063 | Connecting the list to flip-flops succeeds if and only if every name is a declared net without a driver and appears once; otherwise the error is for the first pin that cannot be connected: an undeclared net, or one driven before or twice |
| RegisteredAlways.ElaborateAlways | HPowerEstimator/ODIN_II/SRC/netlist_create_from_ast.c:1964-2063 | A sequential always block is accepted if and only if no path assigns an undeclared, already driven or twice-assigned net, and exactly the assigned names get flip-flops; with good case headers, every clock edge then does what the statement does; an error names a net that some path assigns, and that is undeclared, driven already or assigned twice |
| RegisteredAlways.CaseHeaderExact | HPowerEstimator/ODIN_II/SRC/netlist_create_from_ast.c:2707-2841 | For a case over distinct nets that loads a register, the compiled block matches the statement for all values if and only if the header is good |
| MemorySplitter.MemNode.FindPort | HPowerEstimator/ODIN_II/SRC/memories.c:198-227 | A port is found if and only if some pin carries its mapping, and its pins are exactly the pins of that mapping |
| MemorySplitter.MemNode.RemovePin | HPowerEstimator/ODIN_II/SRC/memories.c:261-268 | Removing an address pin in place shifts the later pins down by one and shrinks that port's size |
| MemorySplitter.Splitter.HalveSp | HPowerEstimator/ODIN_II/SRC/memories.c:261-342 | The node and its new twin keep all ports, lose the first address bit, share the data and remaining address, are clocked by the same pins, and have write enables gated by that bit and by its complement; every output pin's net goes to a multiplexer that the registered bit selects, and both get a pin on a new net instead |
| MemorySplitter.Splitter.SplitSp | HPowerEstimator/ODIN_II/SRC/memories.c:175-354 | The recursion ends with an error exactly when a port is missing or the limit is not positive; otherwise the nodes it puts on the list are, in order, the banks of the split network, each with all pins of the memory other than address, write enable and outputs, its clock among them, and the multiplexers it adds and the banks' output pins are that network's wiring |
| MemorySplitter.Splitter.HalveDp | HPowerEstimator/ODIN_II/SRC/memories.c:445-606 | The dual-port halving, for ports that may be absent; each output port is selected by its own address port's bit, and both halves have the same clock pins |
| MemorySplitter.Splitter.SplitDp | HPowerEstimator/ODIN_II/SRC/memories.c:363-618 | The dual-port recursion ends with exactly the banks of the split network on the list, clocked as the memory was, and its multiplexers and output pins |
| BankedRam.BankShape | HPowerEstimator/ODIN_II/SRC/memories.c:175-354 | k levels of splitting give exactly 2^k banks whose addresses are k bits shorter |
| BankedRam.StepRefines | HPowerEstimator/ODIN_II/SRC/simulate_blif.c:1648-1760 | A clock edge of a bank network that stands for a RAM leaves one that stands for the written RAM, ports writing in order |
| BankedRam.StepReads | HPowerEstimator/ODIN_II/SRC/simulate_blif.c:1648-1760 | Selected by the registered address bits, the network's outputs are the words the whole RAM reads, before the write |
| BankedRam.SplitEquivalent | HPowerEstimator/ODIN_II/SRC/memories.c:175-354 | For any number of ports, any contents and any input trace the network outputs what the RAM outputs |
| MemoryDepth.LeadingExact | HPowerEstimator/ODIN_II/SRC/memories.c:243-249 | The logical depth is the number of address pins before the first that is on the pad net, whatever follows |
| MemorySplitter.SplitSpCorrect | HPowerEstimator/ODIN_II/SRC/memories.c:175-354 | A logical depth of L bits and a limit S < L give exactly 2^(L-S) banks of L-S fewer address bits, at least S, and the same outputs as the unsplit RAM over every trace |
| MemorySplitter.SplitDpCorrect | HPowerEstimator/ODIN_II/SRC/memories.c:363-618 | The same for two ports, including cycles in which both hit one address in the same or in different banks |
| OutputWiring.WiringCarries | HPowerEstimator/ODIN_II/SRC/memories.c:319-342 | After a clock edge, the nets that the memory's output pins were on carry the words the unsplit RAM reads, whenever every multiplexer and every bank drives its nets |
| MemorySplitter.SplitOutputsCorrect | HPowerEstimator/ODIN_II/SRC/memories.c:175-618 | The same after every cycle of every run, from any contents, with the words the unsplit RAM puts out |
| OutputWiring.DriversExact | HPowerEstimator/ODIN_II/SRC/memories.c:322-342 | Every net of the memory keeps as many drivers as it had of the memory's pins, every new net has exactly one, and no other net gets any |
| PinGraph.AttachExact | HPowerEstimator/ODIN_II/SRC/netlist_utils.c:352-363 | Putting a free pin into a spot keeps every back pointer exact if and only if the spot was empty |
| PinGraph.RemapExact | HPowerEstimator/ODIN_II/SRC/netlist_utils.c:501-515 | Remapping a pin keeps every back pointer exact if and only if the new spot is empty or the pin's own |
| PinGraph.Graph.RemapPinToNewNode | HPowerEstimator/ODIN_II/SRC/netlist_utils.c:501-515 | The old spot is empty, the new one holds the pin whatever it held before, the pin points at it and keeps its net, and all other spots, pins and nets are as before |
| PinGraph.Graph.CopyInputNPin | HPowerEstimator/ODIN_II/SRC/netlist_utils.c:248-263 | The copy is a new pin, in no node, that is the last fanout of the original's net if it has one; nothing else changes |
| PinGraph.Graph.ConnectNodes | HPowerEstimator/ODIN_II/SRC/netlist_utils.c:521-554 | Afterwards a new pin is in the input spot and is the last fanout of the net of the pin in the output spot, which drives it; an output spot without a pin gets one, and a new net; all other spots, pins and nets are as before; back pointers stay exact if and only if the input spot was empty |
| PinGraph.Graph.AllocateMorePins | HPowerEstimator/ODIN_II/SRC/netlist_utils.c:141-179 | New spots are empty and a width that is not positive adds none |
| PinGraph.Graph.AddAFanoutPinToNet | HPowerEstimator/ODIN_II/SRC/netlist_utils.c:368-381 | The pin becomes the net's last fanout and points at that place; back pointers stay exact if and only if it had no net |
| PinGraph.Graph.AddADriverPinToNet | HPowerEstimator/ODIN_II/SRC/netlist_utils.c:402-412 | The pin becomes the net's driver in place of any other; back pointers stay exact if and only if neither had another |
| WidthSplit.SplitToArchWidth | HPowerEstimator/ODIN_II/SRC/memories.c:978-1080 | Single and dual port: a memory no wider than the target is left alone; a wider one becomes ceil(width/target) nodes with exactly the planned pins, all back pointers exact, and no pin left in the original when it is freed |
| WidthSplit.BuildSide | HPowerEstimator/ODIN_II/SRC/memories.c:1017-1072 | Port by port, shared pins move in turns of the target width and other pins are copied, or moved into the last slice |
| SlicePlan.SharedOnce | HPowerEstimator/ODIN_II/SRC/memories.c:1022-1039 | Pin q of a shared port is in slice i if and only if q lies in slice i's stretch of the word |
| SlicePlan.OthersEverywhere | HPowerEstimator/ODIN_II/SRC/memories.c:1040-1055 | Every pin of every other port is in every slice, as a copy but for the last |
| SlicePlan.SliceWidths | HPowerEstimator/ODIN_II/SRC/memories.c:993-1039 | Every slice but the last is as wide as the target, none is empty, and together they have the whole width |
| SlicePlan.NoneLeft | HPowerEstimator/ODIN_II/SRC/memories.c:1073-1074 | After the last slice no pin remains |
| RamSlices.SlicesTogether | HPowerEstimator/ODIN_II/SRC/memories.c:978-1080 | The outputs of RAMs on consecutive stretches of the word, side by side, are the whole RAM's output, at every port, after every cycle of every trace |
| RamSlices.SliceRuns | HPowerEstimator/ODIN_II/SRC/memories.c:978-1080 | For any ports, contents and trace, a RAM on a stretch of the word outputs that stretch of every word the whole RAM outputs |
| SlicedRam.NodeIsStretch | HPowerEstimator/ODIN_II/SRC/memories.c:978-1080 | Read off its pins' nets, the i-th node that the split builds is, at every access port, the memory on the i-th stretch of the word |
| SlicedRam.NodeNets | HPowerEstimator/ODIN_II/SRC/memories.c:1057-1072 | Its output pins are on the i-th stretch of the memory's output nets |
| SlicedRam.WidthSplitCorrect | HPowerEstimator/ODIN_II/SRC/memories.c:978-1263 | For one or two access ports, any contents and any trace, the nodes that the split builds put out, side by side and after every cycle, the word the memory puts out, on the memory's own output nets |
| SlicedBanks.StepCuts | HPowerEstimator/ODIN_II/SRC/memories.c:1272-1383 | A clock edge keeps every bank of a depth-split memory cut into its slices |
| SlicedBanks.BothSplitsCorrect | HPowerEstimator/ODIN_II/SRC/memories.c:1272-1383 | A memory split in depth by any number of levels whose banks are all cut to any width puts out, over every trace and from any contents, what it put out whole |
| EventSim.Simulator.Reset | HPowerEstimator/ace2/sim.c:290-303 | Latch outputs start new, everything else undefined, with value and counters zero |
| EventSim.Simulator.GetPiValues | HPowerEstimator/ace2/sim.c:6-109 | After the inputs are set, between cycles becomes within the cycle: inputs hold this cycle's values, status and counters |
| EventSim.Simulator.GetFaninStatus | HPowerEstimator/ace2/sim.c:143-165 | Undefined if some fanin is, else new if some fanin is new or simulated, else old |
| EventSim.Simulator.GetFaninValues | HPowerEstimator/ace2/sim.c:111-141 | The fanins' values, in order |
| EventSim.Simulator.EvaluateCircuit | HPowerEstimator/ace2/sim.c:167-240 | One pass leaves every evaluated object with its function of the current fanin values, old if and only if it had that value the cycle before, and exact counters |
| Circuits.ValueUnchanged | HPowerEstimator/ace2/sim.c:194-197 | An object whose fanins are unchanged is unchanged, so skipping it is right |
| EventSim.ObjectDone | HPowerEstimator/ace2/sim.c:176-238 | Evaluating the next object of a topological order finds no undefined fanin and makes that object current |
| LatchUpdates.LatchOrderExact | HPowerEstimator/ace2/sim.c:242-277 | Updating latches one by one is updating them at once, for all contents, if and only if no latch is driven by an object that an earlier latch writes, other than one fed back |
| EventSim.UpdateReady | HPowerEstimator/ace2/sim.c:242-277 | After the update every latch output holds its driver's value and status, and the circuit is ready for the next cycle |
| EventSim.Simulator.Simulate | HPowerEstimator/ace2/sim.c:279-310 | After any number of cycles, for any input trace, every object has the value full evaluation gives and exact counts of ones and changes; latch outputs carry their driver's record |
| SimCounters.ToggleBounds | HPowerEstimator/ace2/sim.c:218-229 | Changes number at most twice the cycles at 1 and at most twice the cycles at 0, less one for each end of the trace at the other value |
| SimCounters.ExcessToggles | HPowerEstimator/ace2/sim.c:6-58 | The second bound is met with equality if and only if no two cycles in a row are 0 |
| SimCounters.AssertionsExact | HPowerEstimator/ace2/sim.c:312-322 | The closing assertions hold of every input and evaluated object, except that, below 100000 cycles, they fail for a primary input if and only if it is 1 in the first and last cycle and never 0 twice in a row |
| SimCounters.AssertionsFail | HPowerEstimator/ace2/ace.h:27 | A circuit of one input that is 1 in all 5000 cycles, on which a closing assertion fails |
| SoftAdder.InstantiateAddWCarry | HPowerEstimator/ODIN_II/SRC/partial_map.c:591-668 | The cells built in place are a ripple-carry adder: operand bits or ground, and the carry of the bit below |
| SoftAdder.RippleInvariant | HPowerEstimator/ODIN_II/SRC/partial_map.c:591-668 | Sum cells so far and the pending carry make up the sum of the operands' low bits |
| SoftAdder.RippleAdds | HPowerEstimator/ODIN_II/SRC/partial_map.c:591-668 | For operands of any widths the cells output their sum modulo 2^width |
| SoftMultiplier.InstantiateSimpleSoftMultiplier | HPowerEstimator/ODIN_II/SRC/multipliers.c:62-219 | A multiplicand of one bit is rejected, and outputs wider than both operands fail an assertion; any other multiplier is built as the array of gates, adders and outputs |
| SoftMultiplier.NoOverflow | HPowerEstimator/ODIN_II/SRC/multipliers.c:146-186 | No partial adder of width width_a+1 overflows |
| SoftMultiplier.RunningProduct | HPowerEstimator/ODIN_II/SRC/multipliers.c:146-186 | After each row the bits shifted out and the running sum make up a times the low bits of b |
| SoftMultiplier.ArrayMultiplies | HPowerEstimator/ODIN_II/SRC/multipliers.c:62-219 | For every width_a >= 1 and width_b >= 2 the gate-level outputs are the unsigned product on width_a+width_b bits, and its remainder on fewer |
| MultWorklist.SplitKeeps | HPowerEstimator/ODIN_II/SRC/multipliers.c:699-911 | Each of the three splits conserves the partial-product area, lowers the work measure and, for a square block, keeps the number of blocks needed |
| MultWorklist.IterateMultipliers | HPowerEstimator/ODIN_II/SRC/multipliers.c:1054-1124 | The work list empties; every remaining multiplier fits the hard block in one operand order or the other, and a first one that fits stays whole; area is conserved; with a square block their number is exactly the sum of ceil(a/s)*ceil(b/s), and otherwise lies between area over block area and area |
| MultWorklist.HeadExact | HPowerEstimator/ODIN_II/SRC/multipliers.c:1066-1124 | A multiplier at the head of the list stays whole exactly when it fits the block in the order that the sizes then stand in; otherwise it is split |
| MultWorklist.NoneSplitExact | HPowerEstimator/ODIN_II/SRC/multipliers.c:1066-1124 | Nothing is split if and only if every multiplier fits, and one with an operand wider than the smaller block size has an even number of multipliers with a < b before it |
| MultWorklist.SplitAlthoughItFits | HPowerEstimator/ODIN_II/SRC/multipliers.c:1088-1093 | With a block of 25 by 18, two multipliers of 18 by 25 both fit and the second is split all the same |
| Expectation.ExpectIsSum | HPowerEstimator/ace2/bdd.c:158-228 | The recursive expectation is the flat sum over all assignments of their probabilities times the measure |
| BddProb.CubeProb.Recur | HPowerEstimator/ace2/bdd.c:158-228 | The recursion with its table of visited nodes returns the unmemoised value and keeps the table sound |
| BddProb.CalcCubeSwitchProb | HPowerEstimator/ace2/bdd.c:230-243 | The entry point, with an empty table, returns the unmemoised value |
| BddProb.ProbIsExpect | HPowerEstimator/ace2/bdd.c:158-228 | On every diagram that tests an input at most once a path, the value is the sum over all next-input assignments that give the phase of the product of their literal transition probabilities |
| BddProb.OrderedReadsOnce | HPowerEstimator/ace2/bdd.c:158-228 | Every ordered diagram is such a diagram |
| BddProb.PhasesSum | HPowerEstimator/ace2/bdd.c:158-243 | The values for the two phases add to 1 |
| BddProb.ProbBounds | HPowerEstimator/ace2/bdd.c:226-241 | The value is a probability when the transition probabilities are |
| BddProb.CalcSwitchProbRecur | HPowerEstimator/ace2/bdd.c:245-310 | Duplicating and marking cubes down both branches computes the switching recursion |
| BddProb.SwitchBounds | HPowerEstimator/ace2/bdd.c:259-309 | The switching result r lies between 0 and P1 times the joint probability, which is at most P1, so r <= P1*P1 |
| SwitchLoss.ReachesExact | HPowerEstimator/ace2/bdd.c:158-228 | The probability of a phase is not 0 if and only if a leaf of the phase lies down branches of which none has weight 0 |
| SwitchLoss.SwitchUnderestimates | HPowerEstimator/ace2/bdd.c:262-274 | Multiplying by P1 twice underestimates: the result equals the joint probability if and only if P1 is 0 or every reachable leaf of the other phase was certain to be reached or leaves no way to the phase |
| SwitchLoss.SwitchExact | HPowerEstimator/ace2/bdd.c:245-310 | For inputs of which nothing is certain and starting probability 1: equality if and only if the diagram is a leaf, or has no leaf of the other phase, or the next diagram has none of the phase |
| SwitchLoss.SwitchAlwaysShort | HPowerEstimator/ace2/bdd.c:340-361 | With the function itself as the next one and P1 = 1, as the estimator calls it, and inputs of which nothing is certain, the result is below the joint probability if and only if the function is not constant |
| SwitchLoss.SwitchHalved | HPowerEstimator/ace2/bdd.c:262-274 | A one-input circuit on which it is half the joint probability |
| BddProb.JointIsProbability | HPowerEstimator/ace2/bdd.c:245-310 | With P1 taken once and stationary inputs, the recursion would be the probability that the function has the other phase now and the phase next, summed over all present and next values |
| BddProb.TransitionsExact | HPowerEstimator/ace2/ace.h:17-18 | The transition probabilities are probabilities if and only if the switching probability is at most twice the smaller of the static probability and its complement (with the code's cases at 0 and 1) |
| BddProb.TransitionsStationary | HPowerEstimator/ace2/ace.h:17-18 | They keep the static probability unless an input that is always 1 is said to switch |
| BddProb.TransitionsSwitch | HPowerEstimator/ace2/ace.h:17-18 | An input with these transition probabilities switches as often as it is said to |
| Cube.InsertedMembers | HPowerEstimator/ace2/cube.h:41 | Inserting an element adds it and no other, across all words |
| Cube.RemovedMembers | HPowerEstimator/ace2/cube.h:40 | Removing an element removes it and no other |
| Cube.LiteralIsPair | HPowerEstimator/ace2/cube.h:24-28 | A literal never straddles words: the two bits read are its two members |
| Cube.SetLiteralExact | HPowerEstimator/ace2/cube.h:40-41 | Setting the two members of a literal sets that literal and no other |
| Cube.PackedCube.DontCare | HPowerEstimator/ace2/cube.c:48-63 | Every literal of a new cube is don't-care |
| Cube.PackedCube.Dup | HPowerEstimator/ace2/cube.c:15-46 | The copy is fresh and has the same literals, and is refused if and only if some literal is bad |
| Density.TableProbability | HPowerEstimator/ODIN_II/SRC/activity_estimation.c:294-335 | The nested loops over rows and bit columns compute the probability that the function is 1 |
| Density.RangeIsExpect | HPowerEstimator/ODIN_II/SRC/activity_estimation.c:303-333 | The sum over table rows is the sum over all input assignments |
| Density.BooleanDifference | HPowerEstimator/ODIN_II/SRC/activity_estimation.c:393-439 | Entry i is the function with input v at 0 xor the function with input v at 1, at the assignment i with v inserted, for every v including the last |
| Density.SpreadIsInsert | HPowerEstimator/ODIN_II/SRC/activity_estimation.c:412-432 | The bit-insertion index is the row number with a 0 inserted at the variable |
| Density.CalcDensity | HPowerEstimator/ODIN_II/SRC/activity_estimation.c:444-522 | The loops compute the difference table's probability over the other inputs, never above 1, times the input density |
| Density.DifferenceIsSensitivity | HPowerEstimator/ODIN_II/SRC/activity_estimation.c:393-522 | That probability is Pr[f with x_v=1 differs from f with x_v=0] over all inputs |
| Density.SensitivityBound | HPowerEstimator/ODIN_II/SRC/activity_estimation.c:444-522 | It lies in [0,1] and bounds |P(f given x_v=1) - P(f given x_v=0)| |
| Density.NodeDensity | HPowerEstimator/ODIN_II/SRC/activity_estimation.c:103-149 | A node's density, with its special case for one input, is the sensitivity-weighted sum of input densities |
| Density.DensityBound | HPowerEstimator/ODIN_II/SRC/activity_estimation.c:129-149 | It is at most the sum of the input densities |
| Levelize.Levelizer.PlaceSources | HPowerEstimator/ODIN_II/SRC/netlist_check.c:322-376 | Level 0 is the top inputs, supply, ground, pad and flip-flops, in that order, and nothing else |
| Netlist.SourcesExact | HPowerEstimator/ODIN_II/SRC/netlist_check.c:322-376 | The sources are the top inputs, supply, ground, pad and flip-flops, in that order and no others |
| Levelize.Levelizer.VisitFanout | HPowerEstimator/ODIN_II/SRC/netlist_check.c:408-455 | Marking a pin places its node if and only if that was its last unmarked pin and it is no flip-flop |
| Levelize.VisitKeeps | HPowerEstimator/ODIN_II/SRC/netlist_check.c:395-456 | Every visit keeps: placed nodes are the sources and those with all pins marked, on one level each, once |
| Levelize.CloseLevel | HPowerEstimator/ODIN_II/SRC/netlist_check.c:460-470 | When a level has been gone through, exactly the nodes that can be on the next level or below are |
| Levelize.Levelizer.LevelizeForwards | HPowerEstimator/ODIN_II/SRC/netlist_check.c:315-472 | The loops end, no node is listed twice, and every node has the least level it can have, or -1 if it can have none |
| LevelPaths.LevelAboveDrivers | HPowerEstimator/ODIN_II/SRC/netlist_check.c:388-456 | A node is one level above the highest of its drivers |
| LevelPaths.SourceLevel | HPowerEstimator/ODIN_II/SRC/netlist_check.c:322-376 | A node is on level 0 if and only if it is a source |
| LevelPaths.UnplacedExact | HPowerEstimator/ODIN_II/SRC/netlist_check.c:315-472 | A node stays at -1 if and only if some way back over combinational drivers comes to an undriven pin or round a loop |
| LoopCheck.Checker.Traverse | HPowerEstimator/ODIN_II/SRC/netlist_check.c:266-309 | The marked search either reports a path to a node without a level or leaves everything it visits with all its fanouts visited and levelled |
| LoopCheck.Checker.Check | HPowerEstimator/ODIN_II/SRC/netlist_check.c:244-261 | Passing means that every top input, ground and supply have been visited and all that is visited is cleared; failing comes with a path from one of them to a node without a level |
| LoopCheck.PassedExact | HPowerEstimator/ODIN_II/SRC/netlist_check.c:298-302 | After a passed check no path from a top input, ground or supply reaches a combinational node without a level |
| LoopCheck.LoopsHaveFlipFlops | HPowerEstimator/ODIN_II/SRC/netlist_check.c:244-309 | After a passed check every loop reachable from a top input, ground or supply goes through a flip-flop |
| LatchCycles.Network.InCycle | HPowerEstimator/ace2/cycle.c:4-46 | The marked search ends and either finds a path to the latch or exhausts everything it marks |
| LatchCycles.FoundExact | HPowerEstimator/ace2/cycle.c:4-46 | A search that starts with nothing marked finds the latch if and only if it lies on a directed cycle |
| LatchCycles.Network.LatchesInCycles | HPowerEstimator/ace2/cycle.c:47-74 | The result is, in order, the latches on cycles, although marks are never cleared between searches |
| LatchCycles.CyclicExact | HPowerEstimator/ace2/cycle.c:47-74 | A latch is in the result if and only if it is a latch on a directed cycle |
| XmlDecode.NormalizeLines | HPowerEstimator/libvpr/ezxml.c:208-218 | The in-place loop turns CR LF and CR into LF; it steps over the terminator if and only if the text ends in CR and holds no CR LF |
| XmlDecode.NormalizeLength | HPowerEstimator/libvpr/ezxml.c:208-218 | A text gets shorter, and a second terminator is left, if and only if it holds a CR LF |
| XmlDecode.OverrunCases | HPowerEstimator/libvpr/ezxml.c:208-218 | The loop steps over the end of one character and CR, but not of CR LF alone or of CR LF before a last CR |
| XmlDecode.StepShrinks | HPowerEstimator/libvpr/ezxml.c:220-281 | Every round leaves fewer entity references, or as many and less text, although replacement texts are read again |
| XmlDecode.DecodeText | HPowerEstimator/libvpr/ezxml.c:199-298 | The in-place decoder ends on every text and computes the specified decoding, in content, attributes and CDATA, unless its first loop has stepped over the terminator |
| XmlDecode.FirstSemicolon | HPowerEstimator/libvpr/ezxml.c:229-252 | The first semicolon searched for after a reference is the one that ends it |
| XmlReferences.NumericReference | HPowerEstimator/libvpr/ezxml.c:227-249 | A decimal or hexadecimal reference to 1 to 127, with any white space, sign, leading zeros, prefix or letter case that the conversion accepts, decodes to that character followed by the decoded rest |
| XmlReferences.PlainReference | HPowerEstimator/libvpr/ezxml.c:227-249 | In particular one of digits alone |
| XmlReferences.NoReference | HPowerEstimator/libvpr/ezxml.c:230-236 | A reference to 0, or one whose number is not followed by a semicolon, is left as it is |
| XmlReferences.NamedReference | HPowerEstimator/libvpr/ezxml.c:252-279 | A reference to the first entity of that name is replaced by its text, which is decoded again |
| XmlReferences.UnknownEntity | HPowerEstimator/libvpr/ezxml.c:252-281 | An ampersand that starts no known entity is left as it is |
| XmlReferences.FiveEntities | HPowerEstimator/libvpr/ezxml.c:1229-1231 | The five built-in entities decode to their characters, whatever follows |
| XmlReferences.OtherCharacter | HPowerEstimator/libvpr/ezxml.c:281-281 | Any other character is kept, but for white space in attributes, which becomes a space |
| XmlReferences.CdataUntouched | HPowerEstimator/libvpr/ezxml.c:220-281 | In CDATA nothing is decoded |
| XmlReferences.NormalizeAppend | HPowerEstimator/libvpr/ezxml.c:208-218 | Line ends of a text are those of its parts, wherever it is cut other than within a CR LF |
| XmlReferences.NormalizePieces | HPowerEstimator/libvpr/ezxml.c:208-218 | CR LF and a lone CR become LF, and any other character stays |
| XmlDecode.BuiltInOk | HPowerEstimator/libvpr/ezxml.c:1229-1231 | The five built-in entities have replacement texts without entity references |
| XmlEncode.Output.Reserve | HPowerEstimator/libvpr/ezxml.c:990-991 | Reallocation keeps the text and leaves room for ten more characters |
| XmlEncode.Output.Ampencode | HPowerEstimator/libvpr/ezxml.c:978-1023 | The encoder appends the encoding up to a NUL and never writes beyond what is allocated |
| XmlEncode.PieceDecodes | HPowerEstimator/libvpr/ezxml.c:993-1020 | Whatever follows it, an encoded character decodes to itself, or to a space for white space an attribute does not protect |
| XmlEncode.EncodedSafe | HPowerEstimator/libvpr/ezxml.c:993-1020 | No markup character and no CR is left in an encoded text, and in attributes no quote, line feed or tab |
| XmlEncode.EncodedSame | HPowerEstimator/libvpr/ezxml.c:993-1020 | Encoding changes a text if and only if it has a character to protect |
| XmlEncode.RoundTrip | HPowerEstimator/libvpr/ezxml.c:199-298 | For NUL-free text, content comes back unchanged, and an attribute does if and only if it has no vertical tab and no form feed; the decoder never steps over the end of an encoded text |
| MuxCount.NumDefaultMuxes | HPowerEstimator/HPower/power.c:944-954 | The loop ends for any input size and returns the number of multiplexers of the tree |
| MuxCount.RoundsExact | HPowerEstimator/HPower/power.c:948-949 | After k rounds the input size is the original divided by m^k, rounded up once |
| MuxCount.MuxBounds | HPowerEstimator/HPower/power.c:944-954 | n-1 <= (m-1)*r <= n-1+(m-1)*D |
| MuxCount.DepthIsLogarithm | HPowerEstimator/HPower/power.c:944-954 | D is the logarithm of n to base m, rounded up, and at least 1 |
| MuxCount.MuxesExact | HPowerEstimator/HPower/power.c:944-954 | The lower bound is met if and only if n is m to the power D |
| MuxCount.MuxesSum | HPowerEstimator/HPower/power.c:944-954 | The count is the sum over the levels k = 1 .. D of n over m^k, rounded up |
| PowerAccounts.Accounts.InterconnectActivity | HPowerEstimator/HPower/power.c:517-555 | The loops compute the mean activity of input groups of mux_size+2 pins, the last possibly smaller; without an input it is the undefined quotient 0/0 |
| PowerUse.MeanActivityBounds | HPowerEstimator/HPower/power.c:535-555 | The mean is a probability when densities are at most 2 |
| PowerAccounts.Accounts.PowerPb | HPowerEstimator/HPower/power.c:406-616 | The recursion adds the use of everything counted below the node, once each: the primitives, placed or not, and the output pins of multiplexed interconnects without a clock, down the modes in use and the children the library knows |
| PowerSites.ItemsExact | HPowerEstimator/HPower/power.c:406-616 | What is counted below a node is listed, by its path of children, once each and nothing else |
| PowerAmounts.SilenceExact | HPowerEstimator/HPower/power.c:436-450 | The activity of input pins is 1 less the product over the pins of 1 - d/2, with d the density of the pin's net, or 0 |
| PowerAmounts.MeanExact | HPowerEstimator/HPower/power.c:523-555 | The mean activity times the number of groups is the sum of the activities of consecutive groups of mux_size+2 pins, as few as hold all |
| PowerAmounts.PrimitiveExact | HPowerEstimator/HPower/power.c:424-458 | A primitive: leakage is static - sa*static, dynamic times critical path times frequency is sa*dynamic; all of its static power when nothing is placed |
| PowerAmounts.OutputExact | HPowerEstimator/HPower/power.c:565-606 | An output pin: the same with the number of multiplexers of a tree over the inputs, and the bits that select in each |
| PowerAmounts.ItemExact | HPowerEstimator/HPower/power.c:424-611 | Everything counted uses what it should |
| PowerAmounts.RouteExact | HPowerEstimator/HPower/power.c:688-835 | A channel, or an input pin with a fan-in, has the bits of a tree over its fan-in; any other routing node has none |
| PowerLedger.GridBalanced | HPowerEstimator/HPower/power.c:424-611 | Whatever is added up, as much is added to dynamic plus leakage as to primitive plus interconnect power, and memory leakage per bit counted |
| PowerAccounts.Accounts.PowerComplexBlock | HPowerEstimator/HPower/power.c:311-373 | What is added is the sum over everything counted below every block of every occupied location, once each, with the first library entry of its name |
| PowerGrid.GridExact | HPowerEstimator/HPower/power.c:311-373 | Everything counted anywhere in the grid is listed, by location, block and path, once each and nothing else |
| PowerAccounts.Accounts.PowerRouting | HPowerEstimator/HPower/power.c:688-835 | Routing memory leakage is the static power of the configuration bits of every input pin and channel multiplexer |
| PowerAccounts.Accounts.Estimate | HPowerEstimator/HPower/power.c:311-373 | Dynamic power, leakage, bits and multiplexers are the sums, over everything counted in the grid, of what each should add; routing bits are summed over all routing nodes; dynamic plus leakage equals primitive plus interconnect power, and memory leakage equals static power times all configuration bits |

## Left out

- EventSim.Simulator.Simulate: the order condition on latches is an assumption (it is exact, by LatchUpdates.LatchOrderExact), as are a topological order and at least one fanin for evaluated objects; a constant node without fanins is never evaluated by the code.
- BddProb.ProbIsExpect: complement edges are not modelled, and two nodes are the same table key when they are the same diagram.
- BddProb.CalcSwitchProbRecur: the caller's choice of phase by path counts and its scaling by depth are not modelled.
- Cube.PackedCube.DontCare: the count that set_clear keeps in the first word is not modelled.
- StatementCompiler.CompileCorrect: unknown (x) values, literal selectors and labels that are not constants are not modelled; equal names keep their order when sorted, which the library sort does not promise.
- RegisteredAlways.ElaborateAlways: how the clock is picked from the sensitivity list, and combinational always blocks, are not modelled.
- MemorySplitter.Splitter.SplitDp: the limit is taken to be positive, which the code checks for single-port memories only, and a second output port to be as wide as the first.
- OutputWiring.WiringCarries: flip-flop and inverter of a select are part of the multiplexer they feed, clock pins of the flip-flops are not modelled.
- SlicedBanks.BothSplitsCorrect: about bank networks; that the banks' nodes are handed from one split to the other on the memory lists, splitting every bit off, and padding to a fixed width are not modelled.
- WidthSplit.SplitToArchWidth: the single-port routine and its dual-port twin are one method, with one or two shared input ports; ports are identified by number instead of by mapping name, and the freed node stays in the store, without pins.
- PinGraph.Graph.RemapPinToNewNode: the pin must be attached; the code dereferences its node.
- MultWorklist.IterateMultipliers: the pins of the split forms and padding to a fixed size are not modelled; their offsets and sign extensions do not realise the product.
- Density.NodeDensity: one node at a time; the repeated sweeps over the levels, and table entries other than 0 and 1, are not modelled.
- Levelize.Levelizer.LevelizeForwards: pins are driven by at most one output and listed nodes other than flip-flops have no inputs; lazily allocated marks are modelled as all unmarked.
- XmlDecode.DecodeText: entity values may hold character references but no entity references, line counting is not modelled, and what the code does after it has stepped over a terminator depends on memory that is not the text's; the mode that trims attribute spaces and parameter-entity mode are left out.
- XmlDecode.StrToL: character references of 128 and above are written by an arbitrary function, because their shifts overflow for large values.
- PowerAccounts.Accounts.PowerRouting: wire, buffer and routing mux power, and the channel statistics, are not modelled.
- PowerAccounts.Accounts.PowerPb: an interconnect with multiplexers is taken to have an input pin; without one its usage is not a number. Frequencies and the critical path are positive.
- PowerAccounts.Accounts.PowerComplexBlock: a block without a library entry is passed over; the code's message about it, which reads the block's name, is not modelled.
- MuxCount.NumDefaultMuxes: a multiplexer size below 2 is excluded, the loop does not end for it when there is more than one input.
- Reading and writing files, ABC, CUDD, VPR internals, levelize_backwards and the sequential levels are not part of this model.
- Random inputs are an arbitrary trace; rounding, and failure to allocate, are not modelled.
