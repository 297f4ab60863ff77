# DInv in Dafny

DInv extracts distributed states from the vector-clock logs of a running system and slices programs to find
what to log. This project models three parts of it and proves what they are for.

**The log merger.** Hosts that follow the vector-clock algorithm write one log each. The merger builds the lattice
of consistent cuts level by level, matches sends with receives, turns the matches into running counts, keeps the
cuts with nothing in flight, orders the hosts inside each cut and looks up the points logged at it. `runs.dfy`
defines the algorithm as a step system and proves what its logs look like; `consistent_cuts.dfy`, `lattice.dfy`,
`lattice_builder.dfy`, `matching.dfy`, `communication.dfy`, `cuts.dfy`, `total_order.dfy`, `points.dfy` and
`miner.dfy` follow the pipeline on those logs, and `silent_hosts.dfy` gives runs on which it misses cuts.

**The program slicer.** Structured statements become a control-flow graph, the graph gets its post-dominator tree by
the Lengauer-Tarjan algorithm, control dependences are read off that tree, reaching definitions and live variables are
bit-set fixpoints, and a worklist collects the slice. `statements.dfy` gives the statements their executions and
reduces them to the fewer kinds of `structured_flow.dfy`; `cfg_edges.dfy`, `cfg_capture.dfy`, `cfg_traces.dfy`,
`cfg_exact.dfy`, `cfg_exit.dfy`, `cfg_loops.dfy` and `cfg_builder.dfy` compare them with the graph; `graphs.dfy`, `semidominators.dfy`, `dfs_forest.dfy`, `lt_invariant.dfy`, `dom_tree.dfy` and
`lengauer_tarjan.dfy` prove the dominator tree; `control_deps.dfy`, `dataflow.dfy` and `slicer.dfy` the rest.
`block_slices.dfy` numbers the blocks of a function, `dependences.dfy` says what dependence between statements is, and
`statement_slices.dfy` goes from the statements of a function all the way to its slice.

**Two protocols among the examples.** Ricart-Agrawala mutual exclusion (`ricart_agrawala.dfy`, `resends.dfy`,
`turns.dfy`) and dining philosophers with timeouts (`dining.dfy`, `dining_meals.dfy`), each as the atomic steps of its processes and of the network.

Hosts, blocks and statements are named by numbers. A vector clock is a finite map from hosts to times.

## What the code does not keep

Some promises fail, and each failure is stated exactly.

- The graph builder keeps one list of pending breaks and continues for all nesting levels. A loop or switch takes
  every one it finds there, also those of a statement around it. So a break or continue followed by another loop or
  switch inside the same loop body is hooked up to the wrong place, and executions are missing from the graph.
  `CfgTraces.TracesKeptExactly` says exactly when this happens, `CfgTraces.BreakCaptured` shows a program.
- An if gets an edge straight to the if that is its else, also when that one has an init to execute first. So the graph
  has a step no execution takes. As far as executions come it has no other: `CfgExact.EdgesExactly`. It has none at
  all exactly when, besides, no else-if that executions come to has an init: `CfgExact.StepsExactly`,
  `CfgExact.ElseIfSkipsInit`.
- `FindControlDeps` takes only edges whose source does not dominate their target, which leaves out an edge from a block
  to itself, so a block's control dependence on itself can be missed. `ControlDeps.MissedExactly` says which dependences
  are lost. In the graph of a program the only self-edges are those of loops with an empty body and no post statement,
  and each of them is lost: `BlockSlices.CompleteExactly` says that nothing is missed exactly when the program has no
  such loop. `Slicer.SelfLoopsDoNotMatter` proves that slices are the same.
- Definitions are killed as a whole: a statement that redefines one variable of `a, b = f()` hides the other one too,
  and slices miss what it should have reached. The data dependences are those of single variables in all programs
  exactly when no statement defines some but not all variables of another (`Dependences.DataExactly`).
- A level of n points is shared out in chunks of n / div, so the last n mod div points are never looked at. The merger
  reports only true cuts (`Miner.MineCuts`), but a cut that is not looked at is missed for good
  (`Miner.SkippedIsMissed`). All consistent cuts are looked at exactly when, for every size, the number of consistent
  cuts of that size is below 1000 or divisible by the number of threads (`LatticeBuilder.AllLookedExactly`). Two hosts
  that send nothing and log 1001 events each lose a quiet cut with any number of threads but one
  (`SilentHosts.MissesQuietCut`).
- The merger spills to disk only if the logs have more than 5,000,000 consistent cuts; with two or more hosts, when
  all cuts are looked at, it does so exactly then (`LatticeBuilder.BuildLattice5`, `Miner.MineCuts`).
- The lattice stays inside the slots it allots exactly when there are two or more hosts
  (`LatticeBuilder.BuildLattice5`); with one host no level is ever empty (`LatticeBuilder.OneHostNeverEnds`).
- `injectMissingPoints` adds the time of the last logged point a second time, and the later lookup returns the added,
  empty one: the last logged values of each host never reach a state (`Points.IndexPoints`, `Miner.MineStates`).
- A message nobody ever receives is invisible to the logs, so a cut counts as quiet while it is on its way
  (`Miner.LostLooksQuiet`). Quiet means that all messages sent have arrived exactly in the runs that receive every
  message in the end (`Miner.ArrivedExactly`).
- The resend of the mutual exclusion example can come too early: for every number of hosts from two on and every plan
  of two turns or more some run has two hosts in the critical section (`Resends.ResendBreaksExclusion`). All runs
  exclude, whatever is resent and when, exactly with fewer than two hosts or fewer than two turns
  (`Resends.ExclusionExactly`). With more of both, runs exclude in which a host that will ask again resends only what
  was lost (`RicartAgrawala.MutualExclusion`).
  What was lost does need its resend (`Turns.LossBlocks`).
- One timeout with a late ack makes two philosophers starve (`Dining.LateAckStarves`, `Dining.TimeoutStrands`);
  without timeouts no ack is late (`Dining.PatienceStrandsNothing`). A lost ack or release starves two philosophers as
  well (`DiningMeals.LossStarves`), and once everyone has given up once nobody may ever eat again, with nothing lost
  and no ack late (`DiningMeals.TimeoutsEndMeals`). `DiningMeals.EatsExactly` says exactly who can still eat.

## Model

| member | source | states |
|---|---|---|
| StructuredFlow.TraceFollowsTransfers | programslicer/cfg/cfg.go:34-35 | every complete execution of structured statements goes from entry to exit along the properly scoped transfers of its text |
| CfgEdges.ScopedKeepsTransfers | programslicer/cfg/cfg.go:246-257 | where no branch is captured, every transfer is an edge of the built graph |
| CfgCapture.MissingTransfer | programslicer/cfg/cfg.go:404-422 | where a branch is captured, some transfer of the program has no edge |
| CfgCapture.TransfersKeptExactly | programslicer/cfg/cfg.go:506-517 | for every legal program, all transfers are edges if and only if no live break or continue is taken by a loop or switch it does not belong to, except a break at the tail of the clause it leaves |
| CfgTraces.TransferOccurs | programslicer/cfg/cfg.go:291-326 | every transfer of a legal program, those of the entry included, occurs on a complete execution of it |
| CfgTraces.TracesKeptExactly | programslicer/cfg/cfg.go:406-420 | for every legal program, all its executions are entry-to-exit paths of its graph if and only if no live branch is captured |
| CfgTraces.BreakHookedUp | programslicer/cfg/cfg.go:406-420 | the whole graph of a loop whose break comes before an inner loop: the break flows to the statement after the inner loop and not out of its own |
| CfgTraces.BreakCaptured | programslicer/cfg/cfg.go:406-420 | that program is legal and has an execution which is not a path of its graph |
| CfgExact.ExecutedExactly | programslicer/cfg/cfg.go:291-326 | a syntactic condition decides which statements complete executions come to |
| CfgExact.EdgesExactly | programslicer/cfg/cfg.go:259-278 | for every legal program: out of each statement that an execution comes to, the edges are exactly the steps of executions and the else-ifs, if and only if no live branch is captured |
| CfgExact.StepsExactly | programslicer/cfg/cfg.go:361-364 | they are the steps alone if and only if, besides, no if that executions come to has an else-if with something to execute before it |
| CfgExact.GraphExactly | programslicer/cfg/cfg.go:246-257 | without capture and dead code the whole graph is the transfers of the text and the else-ifs |
| CfgExact.ElseIfSkipsInit | programslicer/cfg/cfg.go:361-364 | the smallest program with an else-if that has an init: its graph has an edge past the init that no execution takes |
| CfgExit.ExitReachable | programslicer/cfg/dom.go:157-159 | from every statement of a legal program, dead or captured ones included, the graph has a path to the exit, which is what the post-dominator tree requires |
| CfgLoops.SelfEdgeExactly | programslicer/cfg/cfg.go:378-402 | in the graph of a program a statement flows to itself if and only if it is a loop with an empty body and no post statement |
| CfgLoops.EmptyLoopLeavesFree | programslicer/cfg/cfg.go:402-422 | from whatever such a loop leads to, the exit can be reached without passing the loop again, however deep it is nested |
| Statements.PlainListExecutes | programslicer/cfg/cfg.go:291-326 | a list of statements, with blocks, inits, posts, three kinds of switch, communications and fallthroughs, has exactly the executions of its plain form |
| Statements.SameElseIfsList | programslicer/cfg/cfg.go:361-364 | the else-ifs of a list are the extra edges of its plain form, and those with an init the ones that skip something |
| CfgBuilder.EdgeMirrored | programslicer/cfg/cfg.go:264-268 | adding an edge in both lists keeps Preds and Succs mirrored and free of repeats and adds exactly that edge, also for a block that follows itself |
| CfgBuilder.Builder.AddSucc | programslicer/cfg/cfg.go:259-278 | adds exactly the edges from all of prev to the current statement and keeps the lists mirrored |
| CfgBuilder.Builder.BuildStmt | programslicer/cfg/cfg.go:291-326 | the new edges, control exits and pending branches are those of the statement's plain form |
| CfgBuilder.Builder.BuildBranch | programslicer/cfg/cfg.go:328-341 | a break or continue flows nowhere yet and is remembered |
| CfgBuilder.Builder.BuildIf | programslicer/cfg/cfg.go:343-370 | init, both branches and an else-if with its extra edge; the exits of both branches together |
| CfgBuilder.Builder.BuildLoop | programslicer/cfg/cfg.go:372-423 | head, post, body and back edge of a for or range |
| CfgBuilder.Builder.CloseLoop | programslicer/cfg/cfg.go:402-422 | the loop that removes branches in place leaves none: continues flow to post, breaks become exits |
| CfgBuilder.Builder.TakeBranch | programslicer/cfg/cfg.go:407-420 | one branch is taken and removed, and what is still to do shrinks by exactly that |
| CfgBuilder.Builder.BuildSwitch | programslicer/cfg/cfg.go:425-518 | the three kinds of switch with init, assignment, clauses and breaks |
| CfgBuilder.Builder.BuildCases | programslicer/cfg/cfg.go:464-505 | all clauses in order with their fallthroughs, and the head as an exit when there is no default |
| CfgBuilder.Builder.TakeBreaks | programslicer/cfg/cfg.go:507-517 | all pending breaks become exits, the continues stay |
| CfgBuilder.Builder.BuildBlock | programslicer/cfg/cfg.go:545-552 | a list is built as the sequence of its statements |
| CfgBuilder.FromStmts | programslicer/cfg/cfg.go:113-116 | the returned Preds and Succs mirror each other and name only statements of the body; for every legal body, over the executions of its statements: the paths contain all of them if and only if no branch is captured, and if and only if so the edges out of executed statements are exactly their steps and the else-ifs, and only their steps when no else-if that executions come to has an init; every statement reaches the exit |
| Graphs.InvertedDom | programslicer/cfg/cfg.go:92-111 | dominance in the inverted graph is post-dominance in the graph |
| Semidominators.CommonAncestor | programslicer/cfg/dom.go:124-138 | a path that never goes back in depth-first preorder passes through a common ancestor of its ends |
| Semidominators.DomAboveSdom | programslicer/cfg/dom.go:200-207 | every proper dominator of a block lies at or above its semidominator |
| Semidominators.SdomIsIdom | programslicer/cfg/dom.go:191-199 | a semidominator that no block between undercuts is the immediate dominator |
| Semidominators.IdomOfRelative | programslicer/cfg/dom.go:224-232 | otherwise the block shares its immediate dominator with the block of least semidominator between |
| Semidominators.SemiSplit | programslicer/cfg/dom.go:200-207 | every semidominator path is an edge or goes through the semidominator of a later block, so that step 2 misses none |
| LtInvariant.SearchCovers | programslicer/cfg/dom.go:179-182 | the search from the root leaves a depth-first spanning tree of all reachable blocks |
| LtInvariant.SdomFound | programslicer/cfg/dom.go:200-207 | once all predecessors are considered the recorded block is the semidominator |
| LtInvariant.IdomFound | programslicer/cfg/dom.go:191-199 | the choice of step 3 records the immediate dominator or a block that shares it |
| LtInvariant.BucketPush | programslicer/cfg/dom.go:211-216 | a block moved into the bucket of its semidominator keeps all the linked bucket lists intact |
| LengauerTarjan.DomBuilder.Number | programslicer/cfg/dom.go:124-138 | the recursive search numbers a fresh stretch of blocks in depth-first preorder and leaves the rest |
| LengauerTarjan.DomBuilder.Eval | programslicer/cfg/dom.go:140-150 | the linked ancestor with the least semidominator |
| LengauerTarjan.DomBuilder.Semidominator | programslicer/cfg/dom.go:200-207 | step 2 stores the semidominator in the path sense |
| LengauerTarjan.DomBuilder.Drain | programslicer/cfg/dom.go:191-199 | step 3 decides every block waiting in a bucket |
| LengauerTarjan.DomBuilder.Round | programslicer/cfg/dom.go:187-217 | one round of the main loop keeps the state of the algorithm |
| LengauerTarjan.DomBuilder.Settle | programslicer/cfg/dom.go:224-236 | step 4 makes every immediate dominator explicit and collects the children |
| LengauerTarjan.DomBuilder.NumberTree | programslicer/cfg/dom.go:244-257 | the pre and post numbers of a subtree are intervals whose containment is ancestry, and nothing outside changes |
| LengauerTarjan.DomBuilder.Build | programslicer/cfg/dom.go:160-242 | after it the interval test means dominance, in place on the builder's arrays |
| LengauerTarjan.BuildDomTree | programslicer/cfg/dom.go:86-89 | for every graph reachable from its root, the test of Dominates holds exactly when every path from the root to c passes b, and the parents are the immediate dominators |
| ControlDeps.Walk | programslicer/cfg/dom.go:58-63 | the walk up the tree ends and records exactly the blocks dependent through its edge |
| ControlDeps.FindControlDeps | programslicer/cfg/dom.go:52-68 | ControlDep and ControlDepee mirror each other and hold exactly the dependences through edges that leave a block |
| ControlDeps.MissedExactly | programslicer/cfg/dom.go:46-50 | nothing else is recorded, and what is missed is a block that depends on itself by its own loop edge alone |
| ControlDeps.CompleteIff | programslicer/cfg/dom.go:57-57 | on any graph the recorded dependences are all control dependences if and only if every block with a self-edge has another edge into a block it post-dominates |
| BlockSlices.CompleteExactly | programslicer/cfg/dom.go:52-68 | in the graph of a legal program all control dependences are recorded if and only if the program has no loop with an empty body and no post statement |
| BlockSlices.EmptyLoopMissed | programslicer/cfg/dom.go:57-57 | in the graph of a function that is one empty loop, its dependence on itself is missed |
| BlockSlices.InitializeBlocks | programslicer/cfg/cfg.go:60-89 | the blocks once each, the root first, and successor and predecessor lists that say the same by place |
| BlockSlices.InvertReachable | programslicer/cfg/dom.go:157-159 | in the numbered graph of a legal program every block is reachable from the exit backwards |
| Dependences.DataExactly | programslicer/dataflow/reaching.go:72-104 | the slicer's data dependences are those of single variables, in all legal programs, if and only if no statement defines some but not all variables of another |
| Dependences.OverlapHides | programslicer/dataflow/reaching.go:93-100 | wherever one does, a program of three statements loses a data dependence |
| StatementSlices.SameDependences | programslicer/dataflow/reaching.go:54-70 | among the numbered blocks there are exactly the control and data dependences that the ways through the program give its statements |
| StatementSlices.SliceStatements | programslicer/programslicer.go:512-575 | from the statements of a legal function body and their defined and used variables: the slice is, without repeats, exactly what start depends on, by the ways through the graph of the body and the names of its statements |
| Dataflow.Solve | programslicer/dataflow/reaching.go:125-149 | the repeat-until-stable loop ends in the facts that paths carry, for any union problem with gen and kill sets |
| Dataflow.LeastIsPaths | programslicer/dataflow/reaching.go:125-149 | a stable table that stays below the path meaning equals it |
| Dataflow.GenKill | programslicer/dataflow/reaching.go:72-104 | after both passes the kill set of a statement is exactly the other statements that define one of its variables |
| Dataflow.ReachingDefs | programslicer/dataflow/reaching.go:37-41 | d is in IN of s exactly when some path from d to s has no other statement in between that defines a variable of d |
| Dataflow.LiveVars | programslicer/dataflow/live.go:105-140 | a variable is in IN exactly when some path uses it before defining it, and in OUT when it is so at a successor |
| Slicer.IntersectDefUse | programslicer/dataflow/reaching.go:43-52 | a common variable exists |
| Slicer.CreateDataDepGraph | programslicer/dataflow/reaching.go:54-70 | one edge, in both directions, for each definition that reaches a statement using a variable of it |
| Slicer.Worklist | programslicer/programslicer.go:535-575 | the worklist ends and returns without repeats exactly what the start, and the prior slice, depend on |
| Slicer.ComputeBackwardSlice | programslicer/programslicer.go:512-575 | all stages together: with no prior slice the result is exactly what start depends on through control and data dependence, by their path definitions |
| Slicer.SelfLoopsDoNotMatter | programslicer/programslicer.go:558-572 | the dependences the traversal misses add nothing to any slice |
| Runs.RunGood | dinvRT/README.md:12-16 | every run of the vector-clock algorithm gives logs with own times 1..n, monotone and causally closed, whose knowledge is traceable to messages |
| Runs.CausalRunUnheard | dinvRT/README.md:12-16 | in causally ordered runs every received message is news to its receiver |
| Matching.SearchClockById | logmerger/utils.go:182-202 | binary search finds an equal time or proves there is none, and then stops next to where it would be |
| Matching.MatchSendAndReceive | logmerger/utils.go:106-134 | the least event, over all other hosts, of those that know the sender's time exactly |
| Matching.MatcherFindsPairs | logmerger/utils.go:106-134 | in every run that event is the receive of the real message, and events that sent nothing new match nothing |
| Matching.CausalPairs | logmerger/utils.go:106-134 | in causally ordered runs every received message is matched, and only those |
| ConsistentCuts.Removable | logmerger/lattice.go:185-233 | every consistent cut above the bottom has an event that can be taken back leaving a consistent cut |
| Lattice.ClocksToMaps | logmerger/utils.go:154-180 | on logs with own times 1..n the index holds each event under its own time |
| Lattice.FastMeansAllowed | logmerger/lattice.go:447-465 | the indexed check accepts exactly the points that the host's event allows |
| Lattice.CorrectLatticePoint | logmerger/lattice.go:432-445 | search, nearest preceding clock and comparison accept exactly the same |
| Lattice.CheckBoth | logmerger/lattice.go:432-465 | the fast and the simple check agree |
| Lattice.Covered | logmerger/lattice.go:205-205 | how many points of a level the chunks reach; all of them exactly when the chunks divide it |
| Lattice.NextLevel | logmerger/lattice.go:195-226 | the next level is, without repeats, exactly what grows from the covered points |
| Lattice.NextSound | logmerger/lattice.go:195-226 | a level of consistent cuts of one sum grows into one of the next sum, whatever the chunks |
| Lattice.NextFull | logmerger/lattice.go:195-226 | a full level grows into a full level when every point is covered |
| LatticeBuilder.LatticeWrapper.Push | logmerger/lattice.go:70-94 | stores one level at the next slot and counts its points |
| LatticeBuilder.LatticeWrapper.Beginning | logmerger/lattice.go:61-68 | back to the first level, nothing else changed |
| LatticeBuilder.LatticeWrapper.Pop | logmerger/lattice.go:96-110 | delivers the next level, or nil at the last slot |
| LatticeBuilder.SumTime | logmerger/utils.go:223-241 | on well-formed logs the estimate is the total number of events |
| LatticeBuilder.GrownIsAbove | logmerger/lattice.go:203-222 | what grows from a level is exactly the consistent cuts one event above the points that the chunks reach |
| LatticeBuilder.BuildLattice5 | logmerger/lattice.go:169-236 | level 0 is the bottom and every further level, with or without coverage, holds exactly the consistent cuts one event above the points of the one before that the chunks reach, without repeats; unless it spills it ends with the first empty level, and writes past its estimate if and only if there are fewer than two hosts; it spills only if there are more consistent cuts than fit in memory, and with two or more hosts exactly then when the chunks fit the logs |
| LatticeBuilder.EveryCutStored | logmerger/lattice.go:185-233 | when the chunks cover each level, every consistent cut is stored at the level of its sum |
| LatticeBuilder.CoveredExactly | logmerger/lattice.go:205-205 | the chunks reach all points of all levels if and only if the number of consistent cuts of each sum is small or divisible by the threads, a condition on the logs alone |
| LatticeBuilder.AllLookedExactly | logmerger/cuts.go:75-92 | every consistent cut stands where some chunk looks at it if and only if that condition holds |
| LatticeBuilder.OneThreadFits | logmerger/logmerger.go:499-509 | with one thread the condition holds of all logs |
| LatticeBuilder.OneHostNeverEnds | logmerger/lattice.go:194-233 | with one host every stored level has a point, for any number of threads, so the loop goes on until the store is full |
| Communication.FillCommunicationDelta | logmerger/cuts.go:204-221 | every entry becomes the sum of its row up to it |
| Communication.EnumerateCommunication | logmerger/cuts.go:223-249 | in every run the table holds the running sends minus receives of exactly the real pairs |
| Communication.ZeroMeansQuiet | logmerger/cuts.go:95-104 | a consistent cut sums to zero exactly when every matched message sent inside it is received inside it |
| Cuts.MineLevel | logmerger/cuts.go:75-110 | the mined cuts of a level are, once each, exactly those of its covered points with nothing in flight |
| Cuts.MineConsistentCuts2 | logmerger/cuts.go:63-116 | the Pop loop ends and is given every stored level that has points once and in order; it returns exactly their quiet cuts, none twice, by size |
| TotalOrder.CountAncestors | logmerger/cuts.go:187-202 | for each host, how many of the cut happened before its event |
| TotalOrder.FindUnorderedHost | logmerger/cuts.go:169-185 | the first open host with the most ancestors, found exactly when one is open |
| TotalOrder.FindSenderInCut | logmerger/cuts.go:154-167 | the first linked open host whose message was received last, or proof that no open host sent to the receiver |
| TotalOrder.TotalOrderFromCut | logmerger/cuts.go:123-147 | ends with a partition of the hosts into chains whose neighbours are matched sends and receives; each chain starts with the first host with the most ancestors among those left, goes on with the first of the latest senders among them and ends where none of them sent anything |
| TotalOrder.QuietLinksInside | logmerger/cuts.go:123-147 | in a mined cut all those receives lie inside the cut |
| Points.InjectMissingPoints | logmerger/logs.go:58-103 | whatever the points, the output is sorted and has every time; it keeps all points if and only if they are orderly, and repeats only the last real time |
| Points.PointsToMap | logmerger/utils.go:136-149 | for each time the last point with that time |
| Points.IndexPoints | logmerger/logs.go:88-101 | every time has a point; for orderly points it is fixed which: the last one logged at that time, but an injected one for the time of the very last point and for times without one |
| Miner.MineCuts | logmerger/logmerger.go:243-258 | from the logs of any run: exactly the quiet cuts of the points the chunks reach, once each and by size, and these are all quiet cuts when the chunks fit the logs; it spills only with more consistent cuts than fit in memory |
| Miner.SkippedIsMissed | logmerger/cuts.go:79-79 | the cut of a stored point that the chunks do not reach is not mined, not even from another point |
| Miner.MineCausalRun | logmerger/logmerger.go:243-258 | from a causally ordered run: exactly the quiet cuts of the points the chunks reach, once each and by size; only consistent cuts in which every message sent, and ever received, is received, and all of them when the chunks fit the logs; it overruns exactly with fewer than two hosts and spills only with more consistent cuts than fit in memory |
| Miner.QuietInCausalRuns | logmerger/cuts.go:95-104 | in causally ordered runs nothing is in flight exactly when every message sent inside the cut and ever received is received inside it |
| Miner.ArrivedExactly | logmerger/utils.go:106-134 | in a causally ordered run quiet means, for all consistent cuts, that every message sent has arrived if and only if the run receives every message in the end |
| Miner.LostLooksQuiet | logmerger/cuts.go:223-249 | a run of two hosts whose only message is lost, and a cut after the send that counts as quiet |
| Miner.StateFromCut | logmerger/logmerger.go:299-327 | the lookup never fails: each host's point is the one its log shows for the cut's own time, and the ordering is the greedy chain partition |
| Miner.MineStates | logmerger/logmerger.go:243-263 | the whole pipeline: every state is a quiet cut with its points and ordering, one for each quiet cut of the points the chunks reach, by size, and one for each quiet cut when the chunks fit the logs; it spills only with more consistent cuts than fit in memory |
| SilentHosts.SilentRun | dinvRT/README.md:12-16 | the logs of two hosts that send nothing come out of a causally ordered run, for any numbers of events |
| SilentHosts.SilentDoesNotFit | logmerger/lattice.go:205-205 | with 1001 or more events at each of two hosts that send nothing, no number of threads but one fits the logs |
| SilentHosts.SilentMisses | logmerger/cuts.go:79-79 | whatever lattice two or more threads build of such a run, a quiet cut is not mined from it |
| SilentHosts.MissesQuietCut | logmerger/cuts.go:63-116 | on such a run of 1001 events each the merger completes for any number of threads from two on, with exactly the quiet cuts that the chunks reach, and a quiet cut is not among them |
| RicartAgrawala.StepInv | examples/ricartagrawala/ricartagrawala.go:194-252 | every step, resends of what was really lost included, keeps the invariant: as long as a host may ask again, its request and another host's answer are one token in at most one place, and its place bounds both clocks and priorities |
| RicartAgrawala.MutualExclusion | examples/ricartagrawala/ricartagrawala.go:157-191 | for any number of hosts and turns, any loss, delay, reordering and overwriting, resends of what was lost and any resends of a host in its last turn or done, never two hosts in the critical section |
| RicartAgrawala.WithheldByPrior | examples/ricartagrawala/ricartagrawala.go:213-225 | a host that withholds an ok has a pending request of strictly higher priority |
| RicartAgrawala.NoCyclicWaiting | examples/ricartagrawala/ricartagrawala.go:213-225 | no host waits, through others, for itself |
| RicartAgrawala.SomeoneEnters | examples/ricartagrawala/ricartagrawala.go:173-179 | without losses, when everything sent is read and some request is pending, some host is in the critical section or may enter it |
| Resends.ResendBreaksExclusion | examples/ricartagrawala/ricartagrawala.go:242-262 | for every number of hosts from two on and every number of turns from two on, a run with one resend made too early in which two hosts are in the critical section |
| Resends.ExclusionExactly | examples/ricartagrawala/ricartagrawala.go:157-191 | whatever is lost, delayed, overwritten or resent and when: all runs keep mutual exclusion if and only if there are fewer than two hosts or fewer than two turns |
| Turns.AllTurns | examples/ricartagrawala/ricartagrawala.go:139-185 | for any number of hosts and turns there is a run in which every host takes all its turns and may then finish |
| Turns.LossBlocks | examples/ricartagrawala/ricartagrawala.go:242-262 | a request that is lost keeps its host out of the critical section in every continuation without resends |
| Dining.Conserved | examples/diningPhil/diningphilosopher.go:103-131 | no step, loss and timeout included, makes or destroys a copy of any chopstick |
| Dining.OneStick | examples/diningPhil/diningphilosopher.go:162-216 | in every state of every run each stick is in exactly one place among channel, owner, handlers, messages, neighbour, given-up attempts and losses |
| Dining.NeighboursExclude | examples/diningPhil/diningphilosopher.go:162-216 | two neighbours never hold the stick between them and never eat together, at any table size |
| Dining.NoSendBlocks | examples/diningPhil/diningphilosopher.go:103-117 | nobody who puts a stick back ever finds the channel full |
| Dining.LateAckStarves | examples/diningPhil/diningphilosopher.go:190-206 | once an ack arrives for an attempt that was given up, that philosopher and its neighbour never eat again in any continuation |
| Dining.StrandsExactly | examples/diningPhil/diningphilosopher.go:190-206 | a step strands a stick if and only if it reads an ack for an attempt given up, or times out with the ack already there |
| Dining.PatienceStrandsNothing | examples/diningPhil/diningphilosopher.go:196-206 | in a run without timeouts, whatever is lost, no stick is ever stranded |
| Dining.TimeoutStrands | examples/diningPhil/diningphilosopher.go:196-206 | a single timeout with nothing lost leads there |
| DiningMeals.EatsExactly | examples/diningPhil/diningphilosopher.go:162-223 | from every reachable state at a table of two or more, some continuation lets a philosopher eat if and only if both its sticks are within reach: neither lost, nor stranded, nor on the way to one who does not wait and whose own stick is out of reach |
| DiningMeals.EveryoneCanEat | examples/diningPhil/diningphilosopher.go:196-223 | from the start everyone has a run in which it eats and afterwards has put both sticks back |
| DiningMeals.PatientEat | examples/diningPhil/diningphilosopher.go:196-206 | in every state of a run without timeouts, lost acks and lost releases everyone can still eat |
| DiningMeals.LossStarves | examples/diningPhil/diningphilosopher.go:103-131 | where a stick's ack or release is lost neither its owner nor the philosopher that asks for it can ever eat again |
| DiningMeals.AckLost | examples/diningPhil/diningphilosopher.go:103-131 | any philosopher's ack can be lost |
| DiningMeals.ReleaseLost | examples/diningPhil/diningphilosopher.go:103-131 | any philosopher's release can be lost |
| DiningMeals.TimeoutsEndMeals | examples/diningPhil/diningphilosopher.go:190-206 | at every table of two or more timeouts alone lead to a state from which nobody can ever eat, with nothing lost or stranded |

## Left out

- LatticeBuilder.LatticeWrapper.Push: reports that memory is full and stops there; writing levels to disk is not modelled.
- LatticeBuilder.LatticeWrapper.Beginning: only for a lattice in memory, without the reading back of a file.
- LatticeBuilder.LatticeWrapper.Pop: only for a lattice in memory, without the reading back of files.
- Parsing, JSON, dtrace and ShiViz output, progress output, instrumentation, packing of messages, assertions over the
  network: input and output only.
- Host names and the string keys of maps: hosts are numbers in log order, and a clock is its own key.
- Fixed-width integers: times and counts are unbounded.
- The goroutines of one level are taken one after the other; they write to separate results.
- Fields that the source fills through pointers into blocks, and the communication table, are values returned by the
  methods; aliasing between them is not modelled, except in the dominator builder and the graph builder, which are
  classes with their own state.
- Messages that are never received leave no trace in the logs and are not counted anywhere.
- Labelled statements, goto and defers: they depend on the identity of syntax objects and add bulk.
- Conditions are free: a for without condition may also stop at its head, a select without default may choose nothing,
  as in the graph the builder makes.
- A fallthrough is part of its clause, since the language allows it nowhere else; an init statement, a type
  switch's assignment and a clause's communication are statements executed before what they head.
- The definitions and uses of a statement are given; reading them off the syntax is not modelled.
- The forward slice runs the same worklist, over tables it builds from the dominators of the graph that is not inverted;
  neither these tables nor slices across functions are modelled.
- The lattice builders that are no longer called.
- Hosts and philosophers as processes: each step of the protocols is one atomic change of the whole state, and
  packets duplicated by the network are excluded; a resend to several hosts is one step for each of them.
- The starvation counter, the timeouts and the exit of the mutual exclusion example's main loop; a host that stops
  just takes no more steps.
- The display flags of the philosophers and the request to leave the table.
