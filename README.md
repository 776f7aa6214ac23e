# Deadlock toolkit, modelled in Dafny

The `DeadlockToolkit` class holds the allocation state of `P` processes over `R`
resource types:
- the `P` x `R` integer matrices `allocation`, `max_demand` and `request`;
- the `R`-vector `available`.

It runs three analyses on that state:
- **the Banker's safety check.** It repeats passes over the process ids in
  ascending order. Each pass finishes every unfinished process whose need
  (`max_demand - allocation`) fits the current work vector. A process later in a
  pass sees the work that earlier finishes in the same pass released. The result
  is safe when everyone finishes and unsafe when a pass finishes nobody.
- **deadlock detection.** It builds the bipartite resource-allocation graph and
  asks whether that graph has a simple cycle.
- **recovery.** After a positive detection, it terminates the process with the
  smallest allocation-row sum (lowest id on ties). That process's row is
  credited to `available` and then zeroed.

The class exists twice with the same code: `codes/algorithms.py` and
`codes/final.py`. The only difference is the wording of the "safe" message. Both
copies are modelled once, by `Toolkit.DeadlockToolkit`.

Modules:
- `Matrices` (`matrices.dfy`): vectors and matrices as sequences of unbounded
  integers, with numpy's componentwise `+`, `<=`-for-all, subtraction and row sums.
- `Safety` (`safety.dfy`): the Banker's check as the specification functions
  `Pass` (one `for` pass) and `Run` (the `while` loop). Its theorems are:
  - the check terminates;
  - `work` stays equal to `available` plus what the finished processes hold;
  - a safe verdict lists every id once, in an order in which each process's need fits;
  - with no negative allocation, an unsafe verdict means no such order exists;
  - the textbook fixture gives `[1, 3, 4, 0, 2]`.
- `Graphs` (`graphs.dfy`): directed graphs and a cycle finder. It prunes nodes
  with no successor left, then walks the rest until a node repeats. The finder
  decides exactly whether a simple cycle exists and returns one when it does.
  It stands in for `nx.simple_cycles`.
- `Detection` (`detection.dfy`): the resource-allocation graph, its edge rule,
  bipartiteness, and alternation of processes and resources along every cycle.
  It also proves that no cycle is possible while `request` is zero.
- `Recovery` (`recovery.dfy`): `np.argmin` as the first minimum, and
  conservation of `available[r] + Σ_p allocation[p][r]` when a process is
  terminated.
- `Toolkit` (`toolkit.dfy`): the class itself. It has the five methods.
  The Banker's method has the source's `while`/`for` loops, proved equal to
  `Safety.SafetyCheck`. The detection method has the source's node and edge loops.

The source does no validation. The GUI's checks become preconditions: the counts
must be positive (`codes/gui.py:35-36`) and the matrices must have the toolkit's
dimensions (`codes/gui.py:80-85`). No source method ever stores a non-zero
`request`. States with requests are therefore stated only as values, in the
lemmas about `Detection.Deadlocked`.

The code's pass does not restart from id 0 after a process finishes; its unsafe
result carries no set of unfinished processes; `set_initial_state` checks no
dimensions. The model does the same.

The victim of recovery is chosen among all processes, not among those on a
cycle. With no negative allocation, if some process holds nothing, the victim is
the lowest-id such process; terminating it changes no allocation, so a deadlock
stays (`Recovery.IdleVictim`). `Toolkit.RecoveryCanMissTheCycle` shows one such
state. A negative entry can make another process the victim
(`Recovery.NegativeRowChosen`). The model keeps this behaviour.

## Model

| member | source | states |
|---|---|---|
| Toolkit.DeadlockToolkit.constructor | codes/algorithms.py:6-12 | the toolkit records both counts; `allocation`, `request` and `max_demand` are all-zero `P` x `R` matrices and `available` is the all-zero `R`-vector (the same code is at codes/final.py lines 9-15) |
| Toolkit.DeadlockToolkit.SetInitialState | codes/algorithms.py:14-19 | the three given values replace `allocation`, `max_demand` and `available`; `request` is reset to zero; afterwards the state has no deadlock (same code at codes/final.py lines 17-22) |
| Toolkit.DeadlockToolkit.BankersSafetyCheck | codes/algorithms.py:21-40 | works only on local copies (no field changes); the loops compute exactly `Safety.SafetyCheck` of the state; a safe verdict's sequence is a safe sequence; unsafe with non-negative allocation means no safe sequence exists (same code at codes/final.py lines 24-44) |
| Toolkit.DeadlockToolkit.DetectDeadlock | codes/algorithms.py:42-58 | the node and edge loops build exactly the resource-allocation graph; the answer is true iff that graph has a simple cycle, and then comes with one such cycle (same code at codes/final.py lines 46-62) |
| Toolkit.DeadlockToolkit.RecoverDeadlock | codes/algorithms.py:60-69 | no victim and no change exactly when there is no deadlock; otherwise the victim has a minimal row sum and every lower id has a strictly larger one; the victim's old row is added to `available` and the row is zeroed; `request`, `max_demand` and `available + Σ allocation` per column are unchanged (same code at codes/final.py lines 64-73) |
| Safety.VerdictMeaning | codes/algorithms.py:29-40 | a safe verdict carries a safe sequence; an unsafe verdict with no negative allocation admits none |
| Toolkit.RecoveryCanMissTheCycle | codes/algorithms.py:62-68 | in a state where processes 0 and 1 are deadlocked and process 2 holds nothing, process 2 is the victim and terminating it leaves the allocation unchanged |
| Toolkit.BystanderDeadlock | codes/algorithms.py:50-57 | that state's graph has the cycle P0 → R1 → P1 → R0 |
| Toolkit.BystanderChosen | codes/algorithms.py:65-66 | in that state the first minimum of the row sums is process 2, whose row is already zero |
| Matrices.Zeros | codes/algorithms.py:11 | a vector of `n` entries, all zero, as `np.zeros(num_resources)` |
| Matrices.Add | codes/algorithms.py:33 | the componentwise sum of two vectors of one length, as `work += temp_allocation[p]` |
| Matrices.Leq | codes/algorithms.py:32 | every entry of the first vector is at most the matching entry of the second, as `(temp_need[p] <= work).all()` |
| Matrices.RowSum | codes/algorithms.py:65 | the sum of a row's entries, one entry of `allocation.sum(axis=1)` |
| Matrices.ZeroMatrix | codes/algorithms.py:9-12 | a `rows` x `cols` matrix whose every row is the zero vector |
| Matrices.Need | codes/algorithms.py:24 | need has the shape of the allocation, and each entry is maximum demand minus allocation, possibly negative |
| Matrices.RowSums | codes/algorithms.py:65 | one sum per row, each the sum of that row |
| Safety.Start | codes/algorithms.py:25-27 | the check starts with `work` equal to `available`, one flag per process with every process unfinished, and an empty sequence |
| Safety.Pass | codes/algorithms.py:31-36 | one `for` pass from id `p`: an unfinished process whose need fits `work` is finished (its allocation added to `work`, its flag set, its id appended) before the next id is tried |
| Safety.Run | codes/algorithms.py:29-38 | the `while` loop: safe with the sequence once nobody is unfinished, unsafe when a pass appends nobody, otherwise another pass |
| Safety.SafetyCheck | codes/algorithms.py:21-40 | the Banker's verdict of a state: `Run` from `Start` with need `max_demand - allocation` |
| Safety.PassProgress | codes/algorithms.py:31-36 | a pass keeps the shapes, only appends to the sequence, and finishes exactly as many processes as it appends |
| Safety.StartConsistent | codes/algorithms.py:23-27 | with `work` a copy of `available`, nobody finished and an empty sequence, the scan state is consistent: `work` equals `available` plus the holdings of the listed processes, and the flags mark exactly the listed processes |
| Safety.WorkAfterAppend | codes/algorithms.py:33 | adding a finished process's allocation to `work` is the work after the longer sequence |
| Safety.FinishKeeps | codes/algorithms.py:32-35 | finishing an unfinished process whose need fits keeps the state consistent and the sequence replayable |
| Safety.PassKeeps | codes/algorithms.py:31-36 | a whole pass keeps the state consistent: ids distinct, flags equal to membership, `work` equal to `available` plus what the finished hold, every listed need fitting when it was listed |
| Safety.PassStuck | codes/algorithms.py:37-38 | a pass that finishes nobody saw no unfinished process whose need fits `work` |
| Safety.PassIdle | codes/algorithms.py:31-36 | conversely, when no unfinished process fits, the pass leaves the state as it is |
| Safety.RunStep | codes/algorithms.py:29-38 | one turn of the `while` loop keeps the state consistent; if it finishes nobody the verdict is unsafe, otherwise the unfinished count drops and the verdict is that of the next state |
| Safety.RunContinues | codes/algorithms.py:29-37 | a pass that finishes somebody hands the verdict over to the next turn |
| Safety.RunSafe | codes/algorithms.py:29-40 | a safe verdict from a consistent state is a safe sequence: a permutation of `0..P-1` in which each need fits the work released before it |
| Safety.StuckHasNoSafeSequence | codes/algorithms.py:37-38 | from a consistent state, with non-negative allocation, in which no unfinished process fits: no safe sequence exists |
| Safety.RunUnsafe | codes/algorithms.py:29-38 | an unsafe verdict from a consistent state, with non-negative allocation, means no safe sequence exists |
| Safety.SafeVerdictIsSafeSequence | codes/algorithms.py:40 | the check's safe verdict lists a safe sequence of all processes |
| Safety.UnsafeVerdictHasNoSafeSequence | codes/algorithms.py:37-38 | with non-negative allocation, an unsafe verdict means that no sequence is safe |
| Safety.SafeIffSafeSequenceExists | codes/final.py:32-44 | with non-negative allocation, the verdict is safe iff some safe sequence exists |
| Safety.NoProcessesIsSafe | codes/algorithms.py:29-40 | with no processes the loop body never runs and the verdict is safe with the empty sequence |
| Safety.ClassicFixtureIsSafe | codes/algorithms.py:31-40 | the textbook state with `available = [3, 3, 2]` is safe with the sequence `[1, 3, 4, 0, 2]` (4 finishes in the first pass because it sees the work that 1 and 3 released) |
| Safety.ClassicFixtureWithoutResourcesIsUnsafe | codes/algorithms.py:37-38 | the same matrices with `available = [0, 0, 0]` are unsafe |
| Graphs.CycleSurvivesPrune | codes/algorithms.py:57 | a node on a cycle always has a successor on it, so pruning keeps every cycle |
| Graphs.PruneAll | codes/algorithms.py:57 | repeated pruning keeps every simple cycle, and each remaining node has a successor among the remaining nodes |
| Graphs.ClosePath | codes/algorithms.py:57 | a simple path with an edge from its end back to one of its nodes contains a simple cycle |
| Graphs.ExtendWalk | codes/algorithms.py:57 | extending the walk to an unvisited node keeps it a simple path and shrinks what is left to visit |
| Graphs.WalkToCycle | codes/algorithms.py:57 | in a node set where every node has a successor, the walk ends with a simple cycle |
| Graphs.FindCycle | codes/final.py:61-62 | reports true iff the graph has a simple cycle; when true the cycle returned is simple, and when false it is empty |
| Detection.Nodes | codes/algorithms.py:45-48 | the nodes are exactly processes `0..P-1` and resources `0..R-1` |
| Detection.IsEdge | codes/algorithms.py:52-55 | `R_r → P_p` when `allocation[p][r] > 0`, `P_p → R_r` when `request[p][r] > 0`, within the `P` x `R` range, and no other edge; every edge so defined joins a process node and a resource node of the graph |
| Detection.Deadlocked | codes/algorithms.py:57-58 | the state is reported deadlocked: its resource-allocation graph has a simple cycle |
| Detection.Rag | codes/final.py:48-59 | the graph has those nodes; an edge `R_r → P_p` exists iff `allocation[p][r] > 0`, `P_p → R_r` iff `request[p][r] > 0`, and there is no other edge |
| Detection.RagShape | codes/algorithms.py:50-55 | every edge joins nodes of the graph, and always a process and a resource |
| Detection.CyclesAlternate | codes/algorithms.py:50-57 | every cycle has even length at least two, and processes and resources alternate along it |
| Detection.CycleHasRequest | codes/algorithms.py:54-57 | every cycle passes through a process `p` and a resource `r` with `request[p][r] > 0` |
| Detection.NoRequestNoDeadlock | codes/algorithms.py:19 | with `request` all zero, as `set_initial_state` leaves it, there is no deadlock |
| Detection.DeadlockNeedsProcesses | codes/algorithms.py:62-66 | a deadlock needs at least one process and one resource, so `argmin` always has a row to choose from |
| Detection.CrossRequestDeadlocks | codes/algorithms.py:50-57 | two processes each holding one resource and requesting the other's form the cycle P0 → R1 → P1 → R0 |
| Recovery.ArgMin | codes/algorithms.py:66 | as `np.argmin`: an index no entry is below, with every earlier entry strictly larger (the first minimum) |
| Recovery.FirstMinimumUnique | codes/algorithms.py:66 | those two properties pick out a single index |
| Recovery.ColumnSumUpdate | codes/algorithms.py:68 | replacing a row changes each column sum by the difference of the entries |
| Recovery.TerminateConserves | codes/final.py:71-72 | crediting the victim's row to `available` and then zeroing it keeps `available[r] + Σ_p allocation[p][r]` for every resource type |
| Recovery.RowSumPair | codes/algorithms.py:65 | the sum of a two-entry row is its two entries added |
| Recovery.RowSumOfZeros | codes/algorithms.py:65 | a zeroed row sums to 0 |
| Recovery.RowSumNonNegative | codes/algorithms.py:65 | a row with no negative entry has a non-negative sum, which is 0 only when the row is all zero |
| Recovery.IdleVictim | codes/algorithms.py:65-68 | with no negative allocation and some process holding nothing, the victim holds nothing, every lower id holds something, and zeroing the victim's row leaves the allocation unchanged |
| Recovery.NegativeRowChosen | codes/algorithms.py:65-66 | with allocation `[[1,0],[0,1],[0,0],[0,-1]]` process 2 holds nothing but process 3 is the victim |

## Left out

- The Tkinter interface (`codes/gui.py`, `DeadlockGUI` in `codes/final.py`) and its text parsing. Its positivity and dimension checks are preconditions of the constructor and `SetInitialState`.
- Drawing the graph (`codes/Visualisation.py`, `visualize_graph` in `codes/final.py`). It only re-draws the detection edges.
- The formatted result strings. Results are values: `Safety.Verdict` (safe with its sequence, or unsafe), a flag with a cycle, and `Recovery.Option` for the victim.
- Toolkit.DeadlockToolkit.DetectDeadlock: `nx.simple_cycles` only decides whether the list is empty here. The method returns one witness cycle, not every simple cycle in networkx's order. networkx's string node names (`P0`, `R1`) are the datatype `Detection.Node`.
- numpy's fixed-width `int` arithmetic: entries are unbounded integers, so overflow of `work` or of the row sums is not modelled.
- Safety.UnsafeVerdictHasNoSafeSequence: completeness needs non-negative allocations. With a negative entry, finishing a process can shrink `work`, so the greedy scan can miss an order that exists. The code accepts such input, and the model's check computes the same verdict on it.
- A request-posting operation: the source has none. States with requests are stated as values in `Detection`.
