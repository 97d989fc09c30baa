# Maroon: verified models

Maroon runs fibers on replicated nodes. This project models its six hardest parts in Dafny and proves what they promise,
for all inputs, all runs and all reachable states. `dafny verify dfyconfig.toml` checks everything.

**C++ flattening** (`CppIr`, `CppGenerator`, `CppVisitor`, `CppEngine`, `CppFlattening`, `CppCalls`). The C++ IR nests
blocks, ifs and matches. A generator flattens it into numbered steps with scope counts, and an engine runs the steps
over one stack of variables. `CppIr` gives the IR a lexically scoped meaning of its own. `CppVisitor` is the generator
as a visitor that changes its fields; it is proved to emit what `CppGenerator` specifies, and to abort exactly where
`Accepts` says. The main theorem is an equivalence: the engine ends with an output, ends with an exception, or runs
for ever just when the structured program does, and it never takes an "internal invariant" exit. Recursion is
unbounded. The number given to `Exec` is the call depth that it may use, and the theorem quantifies over it on both
sides. `CppCalls` states which argument reaches which parameter, in the structured meaning and in the engine's frames,
and `CppGenerator` which programs the generator accepts.

**Rust lowering** (`RustIr`, `RustLowering`, `RustSimulation`, `RustRefinement`, `RustCalls`, `RustRuns`,
`RustFiber`). The code generator turns named variables, calls and returns into offsets on one flat stack. The
reference is an interpreter with one named frame per call. One turn of the fiber is proved to be one step of the
interpreter, or two where a block's only result is returned directly. Whole runs agree, whatever the runtime answers
to selects and creates. `RustFiber.Fiber` is the fiber as an object; its invariant is that the stack is that of some
interpreter configuration. `RustCalls` states position by position what calls, selects, updates and creates hand on.

**Replication** (`RangeKey`, `Replica`, `Epochs`, `Intake`, `NodeSpec`, `Delays`, `NodeMethods`, `App`, `Protocol`,
`ProtocolSafety`, `ProtocolTheorems`). `App` is a node with its handlers, proved against the functions and relations
of `Intake`, `NodeSpec` and `Delays`, and `Protocol` takes its steps from the same definitions: a node's offsets are
whatever its scans find. `Protocol` runs any number of such nodes with gateways, gossip, requests, answers, proposals
and one history with a compare-and-swap. Messages may be lost, delayed, reordered and repeated, and any node may
propose at any time. The theorems are history safety, total order, quorum backing, catch-up, that offsets are held
prefixes, and that a committed proposal reaches the consensus it was made from.

**Wait registry** (`WaitLists`, `WaitSpec`, `WaitRegistry`). Nodes in a slab, linked both ways, one list per key, with
registrations that cut across lists. It behaves like a sequence of live registrations in order of arrival, and so like
one FIFO queue per key.

**Scheduler** (`Scheduler`, `RuntimeSpec`, `RuntimeLaws`, `Runtime`). The runtime's loop over active and parked
fibers, queues, futures, timers and requests from outside, built on the registry object. Fibers may do anything: how
each run of a fiber ends is an input. Ghost histories record everything that was enqueued, received, resolved,
accepted, answered and fired, and the invariant ties them to the current state. `RuntimeSpec` says what each phase of
a pass does to the whole state, and the loop is proved to be such passes. `RuntimeLaws` draws the conclusions: how many
passes waiting fibers and overdue timers have to wait at most.

**Virtual time** (`VirtualTasks`, `VirtualPrograms`, `VirtualRuntime`). The earlier runtime with its explicit-stack
programs. What a task writes and when does not depend on the tasks beside it, and the output of the delayed-message,
divisors, factorial and Fibonacci programs is characterised exactly. Lines are structured values instead of strings,
integers are unbounded.

Assumptions about the surroundings:

- Rust IR: every callee exists with the right number of arguments, the names of a function are distinct, `Let` assigns a
  local or the first parameter, results are bound to variables of the function, operands of create steps and of new
  fibers are such variables too, a void function returns no value, and a step that is dropped because a block returns
  into it directly is not reached otherwise. `RustIr.Valid` states all of it.
- C++ IR: names in scope are distinct, and the generator did not abort. What happens at missing returns and
  uncovered matches is stated by `MissingReturnRunsOn` and `UncoveredMatchRunsFirstArm`, and when there are none by
  `CompleteNeverStuck`.
- Replication: every node receives the history in order from number 0, each epoch once; it handles an epoch when it holds
  its transactions; a node has one identity and keeps what it holds; it does not hear its own gossip; there is one gateway
  per range, and ranges stay below the last one.
- Scheduler: the clock does not go back, and a fiber sends only to queues that exist (the runtime panics otherwise).

Where the code and its comments differ, the model follows the code. The offset scan knows nothing of ranges
(`maroon/src/app/app.rs:437-441`), so the property "offsets are longest prefixes" is false in general:
`Replica.ScanRunsOn` gives the input and `Replica.ScanIsPrefix` the exact condition. `Let` writes slot 0 for any
parameter (`dsl/src/codegen.rs:1462-1466`): `RustRefinement.LetOverwritesFirst`, `RustRefinement.LetOfSecondParameter`
and `RustSimulation.LetSlotIsRight`. The loop that answers a peer does not advance on a miss
(`maroon/src/app/app.rs:287-293`): `NodeMethods.WalkEnds`.

## Model

| member | source | states |
|---|---|---|
| CppVisitor.Visitor.PrintHeader | cpp_ir/src/gen_test.cc:306-371 | Emits one step with the pending declarations under the current scope, moves them into scope, and touches no label. |
| CppVisitor.Visitor.Visit | cpp_ir/src/gen_test.cc:306-458 | Visiting any node aborts exactly where `Accepts` fails; otherwise it appends the specified steps and leaves scope and pending variables as specified. |
| CppVisitor.Visitor.VisitIf | cpp_ir/src/gen_test.cc:382-405 | The two branches and the jump over the second one, with the labels that join them, resolve to the specified layout. |
| CppVisitor.Visitor.VisitBlock | cpp_ir/src/gen_test.cc:407-424 | A block's variables are pending for its first step only, and the scope is restored behind it. |
| CppVisitor.Visitor.VisitMatch | cpp_ir/src/gen_test.cc:426-458 | The dispatch step targets each arm's first step, and each arm jumps behind the last. |
| CppVisitor.Visitor.VisitFn | cpp_ir/src/gen_test.cc:488-511 | A function's parameters and variables are declared by its first step. |
| CppVisitor.Visitor.VisitProgram | cpp_ir/src/gen_test.cc:488-511 | The visitor accepts a program just when every function is accepted, emits the linked flat program, and knows where each function starts. |
| CppFlattening.IfLayout | cpp_ir/src/gen_test.cc:382-405 | Wherever an if lies in the linked steps, its test, both branches and the jump between them are at the numbers that the test and the jump name. |
| CppGenerator.LinkAt | cpp_ir/src/gen_test.cc:488-511 | The linked steps hold every function whole, starting at the step that calls jump to. |
| CppGenerator.AcceptsProgramTidy | cpp_ir/src/gen_test.cc:407-424 | A program gets past the generator if and only if in every function and block with variables some step follows, and the first of them is not that of an inner block. |
| CppEngine.Engine.DeclareVars | cpp_ir/src/engine.h:389-454 | Declaring a step's variables one by one gives the specified slots and consumes as many arguments as there are parameters among them. |
| CppEngine.Engine.RunStep | cpp_ir/src/engine.h:496-566 | One pass of the engine's loop is one turn of the machine, exits included. |
| CppEngine.Engine.Run | cpp_ir/src/engine.h:496-566 | Any number of passes is that number of turns. |
| CppFlattening.SimNode | cpp_ir/src/gen_test.cc:306-458 | From the first step of any node, in any context and at any call depth, the engine gets to the step behind it with the variables and the output that the structured meaning gives. |
| CppFlattening.SimBlock | cpp_ir/src/gen_test.cc:407-424 | Entering a block declares its variables, leaving it drops exactly them. |
| CppFlattening.SimCall | cpp_ir/src/engine.h:196-259 | A call pushes a frame, runs the callee to its return, and binds the value where the caller wants it. |
| CppCalls.ParamsGetArgs | cpp_ir/src/gen_test.cc:328-330 | A function starts with its parameters bound to the arguments, position by position. |
| CppCalls.CalleeSlots | cpp_ir/src/engine.h:401-418 | In the first turn of a call, before its step acts, slot i of the new frame is parameter i with argument i. |
| CppFlattening.FlatteningPreservesMeaning | cpp_ir/src/engine.h:496-566 | Whatever the structured program does, the engine does: same output, same exception, and it keeps running while the program needs deeper calls. |
| CppFlattening.SameEnd | cpp_ir/src/engine.h:496-566 | The engine reaches a final state if and only if the structured program has the outcome that stands for it. |
| CppFlattening.FlatteningEquivalence | cpp_ir/src/engine.h:496-566 | Same terminating runs, same exceptions, same endless runs, and no "internal invariant" exit, ever. |
| CppFlattening.MissingReturnRunsOn | cpp_ir/src/engine.h:556-559 | A function that ends without returning, called at any depth, goes on with the first step of the next function and leaves the frames below alone; behind the last function the engine reports the missing return. |
| CppFlattening.UncoveredMatchRunsFirstArm | cpp_ir/src/gen_test.cc:430-441 | A match that does not cover its tag has no meaning, and the engine runs its first arm as if the tag were that arm's. |
| CppFlattening.CompleteNeverStuck | cpp_ir/src/gen_test.cc:430-441 | If all paths return, all names resolve and all matches are covered, the program always has a meaning. |
| RustSimulation.SlotOf | dsl/src/codegen.rs:897-961 | A variable's slot holds that variable, and the return offset of a call leads to the slot it binds. |
| RustSimulation.FindLastInFrame | runtime/src/fiber.rs:97-109 | Looking a variable up by name from the top of the stack finds the current frame's, whatever lies below. |
| RustSimulation.AssignLocalsInFrame | runtime/src/fiber.rs:97-120 | Binding any list of variables by name changes exactly those variables of the current frame. |
| RustSimulation.AssignSlotsInFrame | runtime/src/fiber.rs:231-250 | In-frame assignments by offset are assignments to the named variables. |
| RustSimulation.LetSlotIsRight | dsl/src/codegen.rs:1456-1474 | `Let` writes the variable it names if and only if that is a local or the first parameter. |
| RustRefinement.LetOverwritesFirst | dsl/src/codegen.rs:1900-1917 | A turn at a `Let` of any parameter but the first leaves that parameter alone and overwrites the first. |
| RustRefinement.LetOfSecondParameter | dsl/src/codegen.rs:1462-1466 | The shortest input: the turn of a function with two parameters whose first step is a `Let` of the second. |
| RustSimulation.FreshFrameIs | dsl/src/codegen.rs:912-933 | The values pushed for a call are the callee's named frame: arguments first, then locals with their defaults. |
| RustRefinement.InterpretValid | dsl/src/ir.rs:394-403 | The interpreter keeps frames whole: every frame has exactly its function's variables and every pending bind names one of the caller's. |
| RustRefinement.StackEnded | runtime/src/fiber.rs:182-222 | Returning drops exactly the frame of the call with its marker, and changes at most the caller's bound slot. |
| RustRefinement.StackCalled | dsl/src/codegen.rs:897-961 | A call puts the continuation, the return marker and the callee's frame on top and leaves the rest alone. |
| RustRefinement.DirectReturn | dsl/src/codegen.rs:1481-1496 | Storing a block's only result and returning it equals returning it: fusing the two steps loses nothing. |
| RustRefinement.TurnRefinesStep | runtime/src/fiber.rs:131-270 | One turn on the stack of a configuration gives the stack and the event of the interpreter's step, or of both steps of a fused pair; it never panics and never meets a step without code. |
| RustCalls.CallPasses | dsl/src/codegen.rs:934-953 | The frame that a call adds holds parameter i with the value of argument i in the caller, locals with their defaults; below it only the caller's continuation changes. |
| RustCalls.CallPushes | dsl/src/codegen.rs:897-962 | The same on the stack: over the caller's values its continuation, its return marker and slot i with parameter i and argument i. |
| RustCalls.SelectAsks | dsl/src/codegen.rs:1402-1437 | A select asks for what its arms name, arm by arm, and parks the fiber. |
| RustCalls.SetsTell | dsl/src/codegen.rs:1356-1400 | Every update pairs the future or queue it names with the value it names, in order. |
| RustCalls.CreateSupplies | dsl/src/codegen.rs:1263-1340 | A create hands over one value for every primitive that takes one, in order, from the variable it names. |
| RustRuns.ResumeValid | runtime/src/fiber.rs:97-128 | Waking a fiber after a select or create, at any recursion depth, is resuming the interpreter. |
| RustRuns.PrepareIsStart | dsl/src/codegen.rs:577-707 | The prepared stack of a function is the stack of a fresh call. |
| RustRuns.MachineFollows | runtime/src/fiber.rs:131-270 | Every run of the interpreter, with any answers of the runtime, is a run of the machine with the same visible events, ending in the same configuration or one silent step later. |
| RustRuns.InterpreterFollows | runtime/src/fiber.rs:131-270 | Every run of the machine under a runtime that answers only waiting fibers succeeds, is a run of the interpreter, and ends in a stack of whole frames. |
| RustRuns.CallsAgree | dsl/src/codegen.rs:577-707 | A call that ends leaves nothing but its result on the machine's stack. |
| RustFiber.Fiber.constructor | runtime/src/fiber.rs:71-84 | A new fiber's stack is the start configuration of its function. |
| RustFiber.Fiber.AssignLocal | runtime/src/fiber.rs:97-109 | Overwrites the topmost value with the name, and nothing else. |
| RustFiber.Fiber.Answer | runtime/src/fiber.rs:112-128 | Binding variables and pushing the next step moves the configuration as the interpreter's resume does. |
| RustFiber.Fiber.Apply | runtime/src/fiber.rs:231-250 | Entries of a step are applied in order, assignments in the frame and the rest on top. |
| RustFiber.Fiber.Unwind | runtime/src/fiber.rs:182-222 | Truncates to below the frame, pops the marker and binds the value where it says. |
| RustFiber.Fiber.Execute | runtime/src/fiber.rs:136-266 | One pass of the loop is one turn of the machine. |
| RustFiber.Fiber.Run | runtime/src/fiber.rs:131-270 | The loop does and prints what the interpreter does and prints, and stops where and why the interpreter stops; on the way it only prints, so every request to the runtime stops it. |
| RustFiber.Suppressed | dsl/src/codegen.rs:325-341 | The collected set holds a step if and only if some block returns into it directly. |
| RangeKey.UnpackId | types/src/range_key.rs:116-147 | Unpacking a packed id gives back range and offset if and only if the offset fits and the id is not refused. |
| RangeKey.IdUnpack | types/src/range_key.rs:136-147 | Packing what was unpacked gives back the id. |
| RangeKey.FullIntervalHolds | types/src/range_key.rs:105-123 | A range has a full interval if and only if it is not the last, and that interval holds exactly the range's ids. |
| RangeKey.Ids | types/src/range_key.rs:87-98 | The ids of a closed interval: all of them, once, in increasing order. |
| RangeKey.Collect | types/src/range_key.rs:87-98 | Walking an interval yields its ids. |
| RangeKey.Gateway.SendRequest | gateway/src/core.rs:105-121 | Ids are handed out from offset 0 without a gap, and the last id of a range never is. |
| Replica.PrefixUnique | maroon/src/app/app.rs:403-452 | The longest held prefix is unique, so incremental and from-scratch offsets can be compared. |
| Replica.ScanIsPrefix | maroon/src/app/app.rs:436-444 | The stored offset is the end of the longest held prefix if and only if the range is not held as a whole, or the ids held from it on end with a whole range. |
| Replica.ScanRunsOn | maroon/src/app/app.rs:437-441 | A range held as a whole together with the first id of the next makes the scan report offset 0. |
| Replica.ScanSound | maroon/src/app/app.rs:436-444 | Even then everything up to the reported offset is held. |
| Intake.TakeRangeRight | maroon/src/app/app.rs:412-448 | Scanning on from a right offset gives a right offset as long as the last id of the range is not in use, and no other range's offset moves. |
| Intake.TakeRangeSound | maroon/src/app/app.rs:412-448 | Whatever is held, offsets never claim an id that is missing. |
| Intake.TakeAllRight | maroon/src/app/app.rs:405-453 | In whatever order the ranges of a batch are scanned, the node holds what inserting the batch gives, and its offsets stay longest prefixes as long as no last id is in use. |
| Intake.OrderIrrelevant | maroon/src/app/app.rs:405-453 | From right offsets, the order in which the ranges are scanned makes no difference. |
| App.ByRange | maroon/src/app/app.rs:533-546 | Every touched range gets its own transactions, in order. |
| App.App.TakeBucket | maroon/src/app/app.rs:412-448 | Inserts one range's transactions and scans: a known range from its offset, a new one from its first id if that came along; offsets stay sound. |
| App.App.UpdateSelfOffsets | maroon/src/app/app.rs:405-453 | Scans the ranges of a batch one after the other, each once, in some order, and reports exactly the offsets of those ranges. |
| App.App.MoveOffsetPointer | maroon/src/app/app.rs:379-391 | Records one peer's offset on one range. |
| App.App.HandleTxs | maroon/src/app/app.rs:269-275 | A batch from a peer moves the node as the protocol's step does: transactions, scanned offsets and own entries in the offset table. |
| App.App.HandleNewTransaction | maroon/src/app/app.rs:263-268 | A transaction from a gateway has the same effect as a batch of one. |
| App.App.HandleState | maroon/src/app/app.rs:251-259 | A peer's report replaces that peer's entries for exactly the reported ranges. |
| App.App.RecalculateConsensusOffsets | maroon/src/app/app.rs:174-181 | Ranges reported by enough peers get the quorum offset; the others keep theirs. |
| App.App.Advertise | maroon/src/app/app.rs:302-317 | Renews the consensus offsets, broadcasts the own offsets, and asks exactly what the delays of its state are. |
| App.App.ProposeEpoch | maroon/src/app/app.rs:335-347 | The proposed epoch has the next number and the exact increments. |
| App.App.HandleEpoch | maroon/src/app/app.rs:190-243 | A committed epoch moves offsets, epochs, log and batches exactly as specified. |
| App.Linearizer.NewEpoch | maroon/src/linearizer.rs:23-36 | The log grows by the ids of the epoch's sorted intervals; `Epochs.BatchAscends` says in which order. |
| NodeMethods.ConsensusMaximum | maroon/src/app/app.rs:518-531 | The result is the largest offset that `quorum` peers have reached, and is missing if and only if fewer peers reported. |
| NodeSpec.QuorumOffsetUnique | maroon/src/app/app.rs:515-531 | That offset is unique. |
| NodeMethods.CalculateEpochIncrements | maroon/src/app/app.rs:357-376 | One interval for every range where consensus is ahead, from the first uncommitted offset to the consensus offset, no others, whatever the offsets are. |
| NodeSpec.IncrementsReach | maroon/src/app/app.rs:357-376 | Committing a proposal brings every range to the larger of its committed and its consensus offset. |
| NodeMethods.MissingOf | maroon/src/app/app.rs:480-505 | The intervals are the maximal runs of missing ids, in increasing order, covering exactly what is missing. |
| NodeMethods.SelfDelays | maroon/src/app/app.rs:456-514 | Exactly the lagging ranges are treated, each with a furthest peer, and every peer is asked for the runs of its ranges, each once. |
| Delays.DelaysAsk | maroon/src/app/app.rs:456-514 | What a peer is asked for lies below its offsets, and together with what the node holds it fills every asked range up to them. |
| Delays.DelaysUseful | maroon/src/app/app.rs:456-514 | With right offsets a node never asks itself and never sends an empty request. |
| Delays.GoalsRight | maroon/src/app/app.rs:302-317 | With right offsets every lagging range is asked of a furthest peer, up to that peer's offset. |
| NodeMethods.WalkEnds | maroon/src/app/app.rs:284-296 | The answering loop ends if and only if every requested id is held. |
| NodeMethods.Respond | maroon/src/app/app.rs:276-299 | The answer is complete if and only if every requested id is held and the passes suffice; it then lists the requested transactions in order. |
| NodeMethods.RespondInterval | maroon/src/app/app.rs:285-295 | The loop over one interval, pass by pass: it stays where an id is missing. |
| NodeMethods.SelectedAnswers | maroon/src/app/app.rs:284-299 | That answer holds all requested transactions and nothing else. |
| Epochs.SortSpec | maroon/src/linearizer.rs:27-27 | Sorting permutes; left ends ascend, and right ends where left ends agree. |
| Epochs.BatchAscends | maroon/src/linearizer.rs:23-36 | The ids that an epoch adds are strictly increasing: lower ranges first, inside a range lower offsets. |
| Epochs.CommittedIs | maroon/src/app/app.rs:202-208 | Each interval moves its own range to its end, in any order, and no other range moves. |
| Epochs.BatchCovers | maroon/src/linearizer.rs:31-35 | An epoch that fits adds exactly the ids between old and new committed offsets, none of them logged before. |
| Epochs.ChainedCovers | maroon/src/app/app.rs:202-208 | The log of a chained history holds, of every range, exactly the ids from 0 to the committed offset, each once and in increasing order. |
| Epochs.ChainedDisjoint | epoch_coordinator/src/epoch.rs:24-50 | No id lies in two committed intervals. |
| ProtocolSafety.RecalculatedBacked | maroon/src/app/app.rs:174-181 | A recalculated consensus offset is backed by a quorum now, however old the gossip was. |
| ProtocolSafety.ScanFindsPrefixes | maroon/src/app/app.rs:405-453 | In the protocol the scans find the longest prefixes again after every batch, because gateways never hand out a last id. |
| ProtocolSafety.CommitExtends | epoch_coordinator/src/etcd.rs:193-233 | The compare-and-swap accepts only the next number, so an accepted proposal came from a node that knew the whole history. |
| ProtocolSafety.ProposalFits | maroon/src/app/app.rs:335-376 | A proposal goes on where the epochs that its node knows end. |
| ProtocolSafety.AskedIsHeld | maroon/src/app/app.rs:302-317 | Whatever a node's delays ask of a peer, that peer holds; the peer is another one and something is asked. |
| ProtocolSafety.StepKeepsInv | maroon/src/app/app.rs:190-347 | Every step of the protocol keeps the invariant, and no node ever loses a transaction. |
| ProtocolTheorems.RunInv | maroon/src/app/app.rs:118-171 | The invariant holds in every state of every run. |
| ProtocolTheorems.HistorySafety | epoch_coordinator/src/etcd.rs:193-233 | In every reachable state the history has no holes, intervals are disjoint, and of every range a gap-free run from offset 0 is committed. |
| ProtocolTheorems.TotalOrder | maroon/src/linearizer.rs:23-36 | Logs of any two nodes at any two times are prefix-comparable, and so are the batches sent to their runtimes; logs repeat nothing and equal the batches, and every batch is strictly increasing. |
| ProtocolTheorems.QuorumBacking | maroon/src/app/app.rs:518-531 | Every id of a committed epoch is held by at least `quorum` nodes, from the moment of the commit on. |
| ProtocolTheorems.ProposalReaches | maroon/src/app/app.rs:335-376 | Once a proposal is in the history, its epoch has brought every range to the larger of the committed and the consensus offset of its proposer. |
| ProtocolTheorems.CatchUp | maroon/src/app/app.rs:269-317 | Requests go to others, are not empty and ask only for what is there; an answer lifts the asking node's prefix and its own offset to the offset it had seen. |
| ProtocolTheorems.OffsetsArePrefixes | maroon/src/app/app.rs:405-453 | In every reachable state the offsets found by a node's scans, and its own entries in the offset table, are the longest held prefixes, and no last id of a range is held. |
| WaitLists.PushRepresents | runtime/src/wait_registry.rs:173-200 | Relinking the tail appends to one list and changes no other. |
| WaitLists.UnlinkRepresents | runtime/src/wait_registry.rs:207-246 | Joining the neighbours and moving the ends removes one element of one list and changes no other. |
| WaitRegistry.Registry.ListPushBack | runtime/src/wait_registry.rs:173-200 | Appends the node to the list of its key. |
| WaitRegistry.Registry.ListUnlink | runtime/src/wait_registry.rs:207-246 | Removes the node from slab and list, and the key when its list is empty; a node that is not in the slab changes nothing. |
| WaitRegistry.Registry.RegisterSelect | runtime/src/wait_registry.rs:91-129 | The registration becomes the youngest, with all its arms and an id of its own. |
| WaitRegistry.Registry.WakeOne | runtime/src/wait_registry.rs:134-168 | Returns the oldest registration with an arm on the key, resumed by its first such arm, and removes it with all its arms; nothing else moves, and there is no result just when nobody waits. |
| WaitRegistry.Registry.Cancel | runtime/src/wait_registry.rs:250-263 | Removes a live registration and counts its arms; an id that is not live changes nothing. |
| WaitSpec.RemovedQueues | runtime/src/wait_registry.rs:134-168 | Removing a registration takes all its occurrences, duplicates included, out of every key's queue and keeps the order of the rest. |
| WaitSpec.AppendedQueues | runtime/src/wait_registry.rs:91-129 | A new registration goes to the end of every queue it waits in. |
| WaitSpec.OldestIsFront | runtime/src/wait_registry.rs:134-168 | The oldest registration on a key is the front of that key's queue. |
| Runtime.Runtime.FireTimer | runtime/src/runtime.rs:196-205 | A due timer with the least deadline resolves its future ahead of everything else; without a due timer nothing changes. |
| Runtime.Runtime.SendMessage | runtime/src/runtime.rs:237-249 | A message goes to the end of its queue, and the queue is listed if it was empty. |
| Runtime.Runtime.ResolveFuture | runtime/src/runtime.rs:251-257 | A value for a pending request is its answer; any other value waits for a fiber. |
| Runtime.Runtime.ApplyAll | runtime/src/runtime.rs:234-262 | The updates of a fiber take effect one by one in order. |
| Runtime.Runtime.Validate | runtime/src/runtime.rs:264-288 | All primitives can be created if and only if their queue names are new and distinct; the errors mark exactly the offenders. |
| Runtime.Runtime.CreateAll | runtime/src/runtime.rs:300-325 | All queues exist afterwards, futures and timers get the next ids in order, and every timer is scheduled under its id, due as much later as it asked for. |
| Runtime.Runtime.RunFiber | runtime/src/runtime.rs:208-344 | What each way to stop does to the whole state, timers included, and which ids or errors a creating fiber is told; a failed create changes nothing. |
| Runtime.Runtime.WakeFuture | runtime/src/runtime.rs:346-369 | The first resolution goes to the oldest fiber that waits for it, or to the end of the line. |
| Runtime.Runtime.WakeQueue | runtime/src/runtime.rs:372-408 | The first message of the first listed queue goes to the oldest fiber that waits for it, or the queue goes to the end of the list. |
| Runtime.Runtime.AcceptRequest | runtime/src/runtime.rs:436-449 | A request is accepted under a fresh future just when its queue exists. |
| Runtime.Runtime.TakeTasks | runtime/src/runtime.rs:410-452 | Batches are taken in order, their requests accepted in order, and what is left begins with a batch that is not due. |
| Runtime.Runtime.MainLoop | runtime/src/runtime.rs:187-455 | Every round is a pass through all phases: a timer fires if one is due, all active fibers run as given, the first resolution and the first listed queue reach their oldest waiters, and without a message due batches are taken in. Over any run the invariant holds: fibers conserved, queues FIFO, requests and resolutions conserved, timers honest, nothing taken back. |
| RuntimeSpec.TimersAreHonest | runtime/src/runtime.rs:196-205 | The end of a timer waits for a fiber or has been handed to one at most once, and only after a timer for that future was due. |
| RuntimeLaws.ResolutionReaches | runtime/src/runtime.rs:346-369 | The oldest waiter for the k-th resolution is woken within k + 1 passes and one more for every timer that fires meanwhile. |
| RuntimeLaws.MessageReaches | runtime/src/runtime.rs:372-408 | The oldest waiter for the k-th listed queue is woken within k + 1 passes. |
| RuntimeLaws.TimerReaches | runtime/src/runtime.rs:196-205 | An overdue timer fires within as many passes as there are timers due no later, and by then its oldest waiter has been woken. |
| Scheduler.FiberWakes | runtime/src/runtime.rs:349-357 | A woken fiber was parked, and every fiber stays in exactly one place. |
| Scheduler.FiberParks | runtime/src/runtime.rs:218-221 | A parked fiber has exactly one live registration. |
| Scheduler.MessageTaken | runtime/src/runtime.rs:380-403 | A listed queue has a message; taking it keeps what was enqueued equal to what was delivered followed by the contents. |
| Scheduler.RequestAnswered | runtime/src/runtime.rs:251-257 | Answering moves a request from pending to answered and conserves the rest. |
| Scheduler.AnsweredOnce | runtime/src/runtime.rs:251-257 | No request is answered twice, or answered and still pending. |
| Scheduler.TimerFires | runtime/src/runtime.rs:38-46 | Firing a timer with the least deadline keeps fired deadlines non-decreasing over the whole run, none early, none twice. |
| Scheduler.TimerAdded | runtime/src/runtime.rs:314-321 | A new timer is due no earlier than anything that has fired. |
| VirtualTasks.NextDivisor | state/src/maroon.rs:402-409 | The search stops at the largest divisor not above where it started, or at 0. |
| VirtualPrograms.DivisorsProgram | state/src/maroon.rs:394-427 | The divisors task prints its divisors and closing line and ends, for every n and start. |
| VirtualPrograms.DivisorsDownIs | state/src/maroon.rs:402-417 | What is printed are exactly the divisors, in decreasing order. |
| VirtualPrograms.DivisorLineAt | state/src/maroon.rs:402-427 | Line j comes at the start plus ten times the sum of the divisors up to it. |
| VirtualPrograms.FactorialCall | state/src/maroon.rs:495-537 | A recursive call at any stack depth returns n! to where it was called from, with its announcements on the way. |
| VirtualPrograms.FactorialProgram | state/src/maroon.rs:478-549 | The factorial task prints n! at the start plus 25 n (n + 1), 0 included. |
| VirtualPrograms.FibonacciProgram | state/src/maroon.rs:428-477 | The Fibonacci task prints the numbers on its way and the n-th at its end. |
| VirtualPrograms.FibEndIs | state/src/maroon.rs:442-470 | That end comes 5 n (n - 1) / 2 after the start. |
| VirtualPrograms.DelayedProgram | state/src/maroon.rs:375-393 | The delayed-message task sleeps for its delay, prints its text once and ends. |
| VirtualRuntime.Runtime.StepOne | state/src/maroon.rs:791-920 | Taking values off, stepping and putting them back is what a step specifies, panics included. |
| VirtualRuntime.Runtime.Schedule | state/src/maroon.rs:628-643 | A new task starts with nothing written, and no other task changes. |
| VirtualRuntime.Runtime.ExecuteOne | state/src/maroon.rs:758-920 | Running one pending operation moves one task by the step it would make alone, and panics just when that task panics alone. |
| VirtualRuntime.Runtime.Execute | state/src/maroon.rs:752-923 | However steps interleave, every task is where it would be alone and lines come out in the order of their times; unless a task panics that panics alone, all steps are made or nothing that is left is due, and enough steps for all tasks to end are enough for that. |
| VirtualRuntime.PrintsAsAlone | state/src/maroon.rs:752-923 | What a task has written among others is the beginning of what it writes alone, times included, and all of it once it is gone. |
| VirtualRuntime.EndingIsSane | state/src/maroon.rs:317-552 | A task that ends when it runs alone never panics. |
| VirtualRuntime.EndsAsAlone | state/src/maroon.rs:752-923 | Once nothing is due and the clock has reached the time at which a task ends alone, the task is gone and has written exactly what it writes alone. |
| VirtualRuntime.DivisorsPrinted | state/src/maroon.rs:394-427 | Among any other tasks, the divisors task prints a beginning of its lines, and exactly its lines by the start plus ten times the sum of the divisors. |
| VirtualRuntime.FactorialPrinted | state/src/maroon.rs:478-549 | Among any other tasks, the factorial task has printed exactly its calls and n! by the start plus 25 n (n + 1). |
| VirtualRuntime.FibonacciPrinted | state/src/maroon.rs:428-477 | Among any other tasks, the Fibonacci task has printed exactly its numbers by its end time. |
| VirtualRuntime.DelayedPrinted | state/src/maroon.rs:375-393 | Among any other tasks, the delayed message is printed once, at its time and not before. |

## Left out

- Networking, gossip transport, web sockets, the etcd client, metrics, JSON and hashes: messages are sets, the store is one atomic compare-and-swap, and epochs carry no hash.
- When nodes propose (`maroon/src/epoch_decision_engine.rs`): proposals are possible at any time.
- Late joiners, restarts and redelivered epochs: the node code has no backfill.
- Transaction status and the notification of gateways: they do not feed back into the protocol.
- Progress of the replication protocol: only safety and the effect of an answered request are stated.
- Type checking of the Rust IR, its parser, name mangling and generated text: expressions and inline blocks are opaque functions of the visible variables, and steps are keyed by fiber, function and step.
- Writes of inline Rust blocks to the fiber heap: the heap is read only.
- Typing of values: reading a variable as a wrong variant, which the generated code cannot do for checked IR, is not modelled.
- C++ value display, templates, enum captures as copies, and debug dumps of the stack: a captured variable is a slot without a value of its own.
- Messages between tasks of the virtual-time runtime (sender, awaiter, user storage): the theorem is about tasks that do not communicate.
- RustFiber.Fiber.Run: takes a limit on its turns, because a fiber may loop for ever; the runs of `RustRuns` have any length.
- Runtime.Runtime.MainLoop: takes how fibers stop and what arrives as input, and ends where a fiber sends to a missing queue, where the source panics.
- Runtime.Runtime.RunFiber: fibers are ids; the ids and errors of a create are returned, and that binding them by name reaches the fiber's own variables is the subject of `RustRuns.ResumeValid`.
- VirtualRuntime.Runtime.Execute: takes a limit on its steps, because a task may step for ever; a panic ends it and leaves the state as it was before the step.
- RuntimeSpec.TimersAreHonest: a fiber may also set the future of a timer itself; such values are told apart from the end of the timer.
- App.App.HandleEpoch: requires the transactions of the epoch, as the source does by panicking.
- NodeMethods.Respond: takes a limit on the passes over an interval, because the source loops for ever on a missing id.
- WaitRegistry.Registry.Cancel: says nothing about an id that was used again, which the slab allows.
- Epoch sorting and the sort of peer offsets stand for the library's sort; sorting in place is not modelled.
- The slab's choice among vacant indices and the binary heaps' choice among equal entries are arbitrary.
