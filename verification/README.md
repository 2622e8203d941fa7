# Verified models of a SCADA control plane

This project models the logic of an industrial control platform and proves what it promises over all
definitions, all inputs and all interleavings. Every `.dfy` file is part of one project;
`dafny verify dfyconfig.toml` checks all of it.

**Blueprints (Blueprint, Scan, Ordering, Compiler, Runtime, Runs, Stateful, OpLaws, TagLaws, Naive).** A blueprint
is a list of named logic nodes over named tags. `Blueprint.Solves` gives it a meaning without an execution order:
one equation per node relates the store before a scan to the store after it. The compiler (name resolution, Kahn's
sort, state-slot allocation, stride-3 operand packing) and the scan runtime (one tag buffer, one state buffer) are
imperative Dafny over arrays. The compiler accepts exactly the well-formed acyclic definitions, and every scan of
every run leaves the one solution of the equations, whatever the authoring order. What the operations compute is
pinned by laws between them, and their arity, parameter and state by what they depend on.

**Safe state (Actuation, ActuationLaws, SafeState, SafeStateAudit, SafeStateInvariants, SafeStateTheorems,
SafeStateRuns, SafeStateStranded, SafeStateOutcomes).** The watchdog, the safe-state controller, the actuator and
the host's tick driver form one state machine. A step is a stretch of code between two awaits; audit writes may be
stored, stored but reported as failed, or lost; actuator calls may throw before or after taking effect; ticks, trips
and resumes arrive at any await.

**Storage, liveness, polling (StorageLock, Liveness, ConcurrentMap, SingleFlight).** The promise-chain lock with
transactions is serially equivalent to running the calls one by one until a ROLLBACK throws, and again once the
transaction it left open has ended; it is settled for every row of the observed-liveness history when it compares
with the right predecessor; the bounded map and the cached fleet poll keep their bounds.

**Smaller cores (KeyOrder, CanonicalJson, JsonReader, StateSignature, Quantiles, ControlLoop, Layout, Ladder,
LadderRenderer).** The canonical printer is inverted by a JSON reader, and it is settled exactly when the signing
message is; the sampling ring and its percentiles refine the history of scans; ladder diagrams are rectangles in
which everything nested appears whole.

## Findings

- A longer feedback loop through a LATCH or TON is rejected (`server/blueprint/compiler.ts:291`); only a stateful
  node reading its own output is exempt (line 251). The comments at lines 118-120 and 228-230 promise more. The
  model follows the code: `Compiler.LoopThroughLatchIsRefused` gives a two-node loop, and `Ordering.TopoSort` the
  exact condition.
- The baseline interpreter of `bench/blueprint-runtime/baseline.bench.ts` differs from the runtime when a consumer
  is authored before its producer: `Naive.NaiveNeedsTopologicalOrder`. Topological authoring order is sufficient for
  agreement (`Naive.RuntimeAgreesWithNaive`) and not necessary (`Naive.OrderIsNotNecessary`).
- A blueprint can stay halted while it reports RUNNING, and under the host neither a tick nor a resume ever ends
  that (`SafeStateStranded.StrandedForGood`). Under the host it happens exactly when an entry starts from RUNNING and
  its halt throws after taking effect, or its halt returns while the action is not hold-last and the opt-in is off,
  or its halt returns while a bound field sink throws (`SafeStateStranded.StrandedExactly`; the guards are those of
  `Actuation.ThrowsExactlyWhenRefused`). Arming does not exclude it, because the action reads the opt-in live:
  `SafeStateStranded.OptInWithdrawnStrands` is a run in which the opt-in is withdrawn after arming. It cannot happen
  while the opt-in stays, no field sink is bound and halting does not throw: `SafeStateStranded.ArmedNeverStrands`.
- The watchdog's tick wrapper alone admits a tick body on a halted blueprint while an entry is being anchored, because
  the report is still RUNNING (`server/blueprint/watchdog.ts:140-156` promises otherwise). It does so exactly then
  (`SafeStateStranded.AdmittedWhileAnchoring`, with the run `SafeStateStranded.AnchoringAdmits`); the host is not
  affected, because it looks at the halt latch first.
- A ROLLBACK that throws leaves its transaction open on the connection. The abandoned writes stay visible
  (`StorageLock.FailedRollbackLeaks`), and a later, working ROLLBACK takes away a write of another caller that was
  already acknowledged (`StorageLock.AcknowledgedWriteIsLost`). Exactly when a rollback restores the state at BEGIN
  is `StorageLock.RollbackRestores`; exactly when a transaction is left open is `StorageLock.OpenExactly`; once it
  has ended, serial equivalence holds again (`StorageLock.SerialEquivalence`).
- A liveness append that was stored but reported as failed can leave the collector's baseline of a validator behind
  the table (`Liveness.AmbiguousAppendMisleads`), until an append with a height of that validator is acknowledged or
  the process starts over. A row of a validator compares with the right predecessor exactly when the last step
  before it that started the process, read the table or stored a height of that validator was not such an append, or
  was one that repeated the baseline (`Liveness.HonestExactly`).
- The signing message is injective exactly when at most one of key, nonce and time may hold newlines; with any two
  of them two different statements share a message: `StateSignature.SigningMessageIsInjective`.

## Model

| member | source | states |
|---|---|---|
| `Scan.PassSolves` | server/blueprint/runtime.ts:100-231 | one pass over a topological order leaves a store that solves every node's equation, and leaves alone what no node writes |
| `Scan.SolutionUnique` | server/blueprint/runtime.ts:100-231 | any two stores that solve the equations from the same previous store hold the same values |
| `Scan.AcyclicRearranged` | server/blueprint/compiler.ts:232-303 | acyclicity does not depend on how the nodes are listed |
| `Ordering.EmptyTables` | server/blueprint/compiler.ts:236-241 | every node starts with in-degree 0 and no dependents |
| `Ordering.AddEdges` | server/blueprint/compiler.ts:243-270 | a node is refused exactly when it is stateless and reads its own output; otherwise each distinct other producer adds one edge and one in-degree |
| `Ordering.BuildGraph` | server/blueprint/compiler.ts:243-270 | the tables hold the edges of all nodes, or the first self-fed node is reported |
| `Ordering.ConsumersReverse` | server/blueprint/compiler.ts:267 | the dependents of a producer are exactly its consumers, each once |
| `Ordering.ReleaseOne` | server/blueprint/compiler.ts:284-288 | decrementing a dependent keeps the in-degree equal to its unprocessed producers and queues it exactly when none is left |
| `Ordering.Drain` | server/blueprint/compiler.ts:273-289 | the queue has no repeats, puts every producer before its consumers, and whatever is not queued waits for something not queued |
| `Ordering.StuckHasCycle` | server/blueprint/compiler.ts:291-300 | nodes that wait for one another contain a dependency cycle |
| `Ordering.OrderedIsAcyclic` | server/blueprint/compiler.ts:232-303 | a definition that has a topological order has no dependency cycle |
| `Ordering.TopoSort` | server/blueprint/compiler.ts:232-303 | the sort succeeds exactly when the dependencies are acyclic, then returns a permutation with every producer first; a refusal names a self-fed node or nodes that wait for one another |
| `Compiler.IndexTags` | server/blueprint/compiler.ts:81-90 | tags get dense slots in declaration order, or a repeated name is reported |
| `Compiler.MarshalTags` | server/blueprint/compiler.ts:93-102 | initial values and the ascending input and output slots |
| `Compiler.ValidateNode` | server/blueprint/compiler.ts:187-219 | a node passes exactly when op, arity, tags, parameter and preset are in order; an error points at a real defect |
| `Compiler.ValidateNodes` | server/blueprint/compiler.ts:104-115 | passes exactly when all nodes do and no tag has two drivers, and then yields the driver of every written tag |
| `Compiler.AllocateState` | server/blueprint/compiler.ts:123-132 | exactly the stateful nodes own slots, numbered densely in schedule order |
| `Compiler.EmitOperands` | server/blueprint/compiler.ts:149-158 | the operands of an instruction fill its stride of three and touch no other |
| `Compiler.Compile` | server/blueprint/compiler.ts:76-183 | compilation succeeds exactly on accepted definitions; the program then encodes all nodes in a topological order; a refusal points at a real defect |
| `OpLaws.ArityIsMeaning` | server/blueprint/compiler.ts:44-66 | for every op, operand k can change the output or the state, for some values of everything else, exactly when k is below its arity; an op has no arity exactly when it is outside the op table |
| `OpLaws.ParamIsMeaning` | server/blueprint/compiler.ts:68-69 | an op needs a parameter exactly when the parameter can change what it does |
| `OpLaws.StateIsMeaning` | server/blueprint/compiler.ts:71-72 | an op owns a state slot exactly when it can change its state |
| `Compiler.LoopThroughLatchIsRefused` | server/blueprint/compiler.ts:246-264 | a LATCH and a MOVE that read each other are refused although each node is in order, and a LATCH reading its own output is accepted |
| `Runtime.Dispatch` | server/blueprint/runtime.ts:127-188 | the stateless arms of the opcode switch compute the op's meaning; dividing by zero yields 0 |
| `Runtime.Latch` | server/blueprint/runtime.ts:190-199 | reset, then set: the new state and output of a latch |
| `Runtime.OnDelay` | server/blueprint/runtime.ts:200-220 | the new elapsed time and done bit of an on-delay timer |
| `OpLaws.Gates` | server/blueprint/runtime.ts:129-140 | AND is non-zero only on two non-zero operands, OR zero only on two zeros, NOT swaps them, XOR is an OR that is no AND, and all answer 0 or 1 |
| `OpLaws.Comparisons` | server/blueprint/runtime.ts:142-159 | GT holds exactly when SUB is positive; the other five comparisons follow from it through swapping, NOT and AND |
| `OpLaws.Sums` | server/blueprint/runtime.ts:161-166 | ADD has unit 0, commutes, associates and preserves order; SUB undoes it |
| `OpLaws.Products` | server/blueprint/runtime.ts:167-169 | MUL has unit 1, commutes and distributes over ADD |
| `OpLaws.Quotients` | server/blueprint/runtime.ts:170-172 | DIV undoes MUL for a non-zero divisor, in both orders, and is 0 on a zero divisor |
| `OpLaws.Extremes` | server/blueprint/runtime.ts:173-178 | MIN is below both operands and one of them, and MIN and MAX add up to both |
| `OpLaws.Movements` | server/blueprint/runtime.ts:180-188 | SELECT does not depend on the operand its condition leaves out and returns the common value when both agree; MOVE adds nothing; CONST is its parameter |
| `OpLaws.ScanWritesOut` | server/blueprint/runtime.ts:113-228 | in every run, every scan writes for a stateless node the output of its op on what the node senses, so the laws hold of the scan's outputs |
| `OpLaws.SelectionInRun` | server/blueprint/runtime.ts:180-182 | in every run a selection node writes what its second operand senses exactly while the first is non-zero, else the third |
| `Runtime.CompiledFits` | server/blueprint/compiler.ts:134-162 | every slot and operand index of a compiled program lies within the runtime's buffers |
| `Runtime.BlueprintRuntime.constructor` | server/blueprint/runtime.ts:64-78 | a runtime for a compiled program starts with the initial tag values and cleared state |
| `Runtime.BlueprintRuntime.Execute` | server/blueprint/runtime.ts:127-225 | one instruction yields the meaning of its node and updates only its own state slot |
| `Runtime.BlueprintRuntime.ExecuteInstruction` | server/blueprint/runtime.ts:113-228 | one iteration is one step of the pass on the store that the buffers represent |
| `Runtime.BlueprintRuntime.TickFast` | server/blueprint/runtime.ts:100-231 | a scan is the pass over the compiled order, on tags and state by name |
| `Runtime.BlueprintRuntime.WriteInputs` | server/blueprint/runtime.ts:239-247 | writes the input tags in slot order; a wrong length is refused and changes nothing |
| `Runtime.BlueprintRuntime.ReadOutputs` | server/blueprint/runtime.ts:253-261 | reads the output tags in slot order; a wrong length is refused and changes nothing |
| `Runtime.BlueprintRuntime.Get` | server/blueprint/runtime.ts:266-270 | the tag's value, or none for an unknown name |
| `Runtime.BlueprintRuntime.SetTag` | server/blueprint/runtime.ts:273-277 | changes one tag; an unknown name is refused and changes nothing |
| `Runtime.BlueprintRuntime.Reset` | server/blueprint/runtime.ts:280-284 | the store and the tick counter of a fresh runtime |
| `Runs.ScanIsTheSolution` | server/blueprint/runtime.ts:100-231 | in any run of input writes, tag writes, scans and resets, a store solves the equations of the next scan if and only if it holds the values the scan produces |
| `Runs.OrderIrrelevant` | server/blueprint/compiler.ts:121-162 | any two schedules of any two listings of the same nodes hold the same tags, and the same state per node, after any run |
| `Runs.AcceptanceIgnoresOrder` | server/blueprint/compiler.ts:76-121 | a definition is accepted in every listing of its nodes or in none |
| `Runs.ResetIsFresh` | server/blueprint/runtime.ts:280-284 | after a reset a run continues exactly as a freshly built runtime's |
| `TagLaws.SlotsExactly` | server/blueprint/compiler.ts:95-102 | the slots of a direction are exactly the positions of the tags declared with it, ascending |
| `TagLaws.FreshTags` | server/blueprint/compiler.ts:97-99 | a freshly loaded blueprint holds every tag's declared initial value, and 0 where none is declared |
| `TagLaws.ScanPeriod` | server/blueprint/runtime.ts:78 | the scan length is the declared period in seconds, or a tenth of a second |
| `TagLaws.InputsLand` | server/blueprint/runtime.ts:239-247 | in every run a bulk write gives the k-th input tag the k-th value and touches no other tag and no state |
| `TagLaws.WrongLengthIsRefused` | server/blueprint/runtime.ts:242-244 | a bulk write of the wrong length changes nothing |
| `Runs.Drive` | server/blueprint/runtime.ts:64-284 | compiling a definition, loading it and making any sequence of calls leaves the runtime with the store of that run, for a schedule of the nodes; refused exactly when the definition is not accepted |
| `Stateful.StartsAtRest` | server/blueprint/runtime.ts:280-284 | the state of every node is 0 initially and after a reset |
| `Stateful.TimerInRun` | server/blueprint/runtime.ts:200-220 | in any stretch of a run without a reset, a timer that starts at rest and is enabled at every scan holds min(k·dt, preset) after k scans, and after each scan is done exactly when k·dt has reached the preset |
| `Stateful.TimerRests` | server/blueprint/runtime.ts:214-217 | in any run a disabled scan brings a timer back to rest |
| `Stateful.LatchInRun` | server/blueprint/runtime.ts:190-199 | in any stretch of a run without a reset, a latch that starts cleared is 1 exactly when the last scan with set or reset active had set active, and 0 otherwise |
| `Naive.NaiveBlueprintInterpreter.ExecuteNode` | bench/blueprint-runtime/baseline.bench.ts:62-160 | one node of the baseline is one step of the pass |
| `Naive.NaiveBlueprintInterpreter.Tick` | bench/blueprint-runtime/baseline.bench.ts:59-164 | a baseline scan is the pass in authoring order; the result lists exactly the written tags |
| `Naive.RuntimeAgreesWithNaive` | bench/blueprint-runtime/baseline.bench.ts:36-164 | when the authoring order is topological the compiled runtime and the baseline hold the same values after any run |
| `Naive.NaiveBlueprintInterpreter.SetInput` | bench/blueprint-runtime/baseline.bench.ts:51-53 | sets one entry of the tag map |
| `Naive.NaiveNeedsTopologicalOrder` | bench/blueprint-runtime/baseline.bench.ts:44-47 | a two-node blueprint listed consumer first, on which the two differ after one scan |
| `Naive.OrderIsNotNecessary` | bench/blueprint-runtime/baseline.bench.ts:44-47 | a two-node blueprint listed consumer first, on which both passes agree from every store |
| `Actuation.ActuateCommands` | server/blueprint/runtime-actuator.ts:234-294 | an action that returned normally left every output it is responsible for at the commanded value |
| `Actuation.ActuateIdempotent` | server/blueprint/runtime-actuator.ts:234-294 | repeating an action on commanded outputs moves no tag, even when it throws |
| `Actuation.ThrowsExactlyWhenRefused` | server/blueprint/runtime-actuator.ts:234-306 | an action that fits the output tags throws exactly when it is not hold-last and the opt-in is off, or a bound sink throws |
| `Actuation.CanApplyNeverThrows` | server/blueprint/runtime-actuator.ts:164-206 | an action accepted at registration cannot throw unless a bound sink does |
| `ActuationLaws.AcceptedExactly` | server/blueprint/runtime-actuator.ts:164-206 | registration accepts exactly the actions that fit the output tags, have something to zero and cannot throw while the sink works |
| `ActuationLaws.OnlyOutputsMove` | server/blueprint/runtime-actuator.ts:234-294 | a fitting action moves no tag but outputs, hold-last none at all, and one refused for want of the opt-in leaves the whole plant as it was |
| `ActuationLaws.HeldIsWhatIsThere` | server/blueprint/runtime-actuator.ts:234-294 | after an action that returned normally the held outputs are what the tags say and the mode is the action's |
| `Actuation.BlueprintRuntimeActuator.AssertCanApply` | server/blueprint/runtime-actuator.ts:164-206 | the check accepts exactly the actions with opt-in, something to zero, and a recipe over output tags only |
| `Actuation.BlueprintRuntimeActuator.Halt` | server/blueprint/runtime-actuator.ts:214-216 | sets the halt latch and nothing else |
| `Actuation.BlueprintRuntimeActuator.Resume` | server/blueprint/runtime-actuator.ts:223-227 | clears the latch, the output mode and the held outputs, and moves no tag |
| `Actuation.BlueprintRuntimeActuator.HoldLastOutputs` | server/blueprint/runtime-actuator.ts:234-239 | holds the outputs as they are |
| `Actuation.BlueprintRuntimeActuator.ReadOutputs` | server/blueprint/runtime-actuator.ts:145-149 | the current value of every output tag |
| `Actuation.BlueprintRuntimeActuator.ForceZeroOutputs` | server/blueprint/runtime-actuator.ts:249-264 | every output tag becomes 0 and no other tag moves, or nothing changes without opt-in |
| `Actuation.BlueprintRuntimeActuator.ApplySafeRecipe` | server/blueprint/runtime-actuator.ts:273-294 | the recipe's values are written in order up to the first unknown name; without opt-in or recipe nothing changes |
| `SafeStateInvariants.ChainKept` | server/blueprint/safe-state.ts:574-581 | transitions run one at a time and in call order, whatever is called when |
| `SafeStateInvariants.ChainNeverBlocks` | server/blueprint/safe-state.ts:574-581 | the first unsettled transition can always take a step that brings it closer to settling, whatever the environment answers |
| `SafeStateInvariants.InvKept` | server/blueprint/safe-state.ts:257-512 | every step of every component keeps the protocol's invariant |
| `SafeStateInvariants.RunInv` | server/blueprint/safe-state.ts:257-512 | the invariant holds at every await of every run |
| `SafeStateAudit.RecordKeepsLog` | server/storage.ts:1550-1596 | an audit write, whatever its outcome, only extends the log and never gives one hash two rows |
| `SafeStateTheorems.SecuredStep` | server/blueprint/watchdog.ts:153-173 | while the safe state is applied or being left, no tick body runs and no step moves an output |
| `SafeStateTheorems.FrozenOutputs` | server/blueprint/safety-host.ts:236-249 | in every interleaving the outputs stay as the safe action left them until RUNNING is regained, and no tick body runs meanwhile |
| `SafeStateTheorems.FailedExitKeepsOutputs` | server/blueprint/safe-state.ts:387-467 | an exit that fails, before or after the actuator was resumed, leaves the outputs exactly as before the request |
| `SafeStateTheorems.ReleasedOnlyByResume` | server/blueprint/runtime-actuator.ts:214-227 | the halt latch is released only by the actuator resume of an exit |
| `SafeStateTheorems.DurableBeforeResume` | server/blueprint/safe-state.ts:346-395 | in every run, even when writes fail ambiguously, the actuator is resumed only from SAFE_STATE and only once this episode's ENTERED row and this request's EXIT_REQUESTED row, with the same operator, are stored |
| `SafeStateTheorems.RunningAfterExited` | server/blueprint/safe-state.ts:396-436 | in every run RUNNING is regained only by a resume whose own EXITED row, with its operator, is stored |
| `SafeStateTheorems.NoTickUntilResumed` | server/blueprint/safety-host.ts:236-249 | from a halt on, whether the entry then succeeded or failed, no tick body runs until a resume regains RUNNING |
| `SafeStateTheorems.LogOnlyGrows` | server/storage.ts:1550-1596 | over any run with any retries the log only grows and holds at most one row per event |
| `SafeStateRuns.EntriesConserved` | server/blueprint/safe-state.ts:257-318 | every step keeps physical entries and ENTERED rows (stored, pending or being anchored) in one-to-one correspondence |
| `SafeStateRuns.EntriesInRun` | server/blueprint/safe-state.ts:257-318 | the correspondence holds throughout every run |
| `SafeStateRuns.OneEntryPerEpisode` | server/blueprint/safe-state.ts:261-264 | in every run, from the physical entry of an episode until RUNNING is regained or recovery fails, no further entry and no further ENTERED row comes about, however many trips are called |
| `SafeStateRuns.ReportedStateIsTruthful` | server/blueprint/safe-state.ts:257-301 | SAFE_STATE is reported only while the latest halt and safe action returned normally with no actuator resume since; with no transition under way the report is RUNNING, SAFE_STATE or RECOVERY_FAILED |
| `SafeStateRuns.RecoveryFailsExactly` | server/blueprint/safe-state.ts:482-512 | in every run, RECOVERY_FAILED is entered exactly by a step that compensates a failed exit and in which the halt throws or a guard of the safe action refuses it |
| `SafeStateRuns.RecoveryFailedIsLatched` | server/blueprint/safe-state.ts:439-512 | RECOVERY_FAILED is entered only by a failing recovery and left only by a new entry |
| `SafeStateRuns.RecoveryFailedIsFinal` | server/blueprint/watchdog.ts:97-107 | under the host no tick and no operator resume ever leaves RECOVERY_FAILED |
| `SafeStateRuns.ArmedNeverFails` | server/blueprint/registry.ts:36-41 | once registration accepted the action, with no sink and the opt-in unchanged, RECOVERY_FAILED is unreachable and the action stays applicable in every reachable state |
| `SafeStateRuns.ArmedEntrySucceeds` | server/blueprint/safe-state.ts:266-268 | in every such run an entry started outside the safe state halts the loop, commands the outputs and goes on to its anchor |
| `SafeStateRuns.MissesInRun` | server/blueprint/watchdog.ts:97-138 | the miss counter is the over-budget streak since the last in-budget tick or resume, in every run |
| `SafeStateRuns.TripsExactly` | server/blueprint/watchdog.ts:97-138 | in every run an observation, by the host's tick or another caller, requests an entry exactly when the watchdog is enabled, the blueprint RUNNING, the tick over budget and the streak reaches the threshold; the entry carries the streak |
| `SafeStateRuns.HostTickInRun` | server/blueprint/safety-host.ts:236-249 | in every run the host's timer runs the tick body exactly when the blueprint is RUNNING, its latch is open and no trip of an earlier tick is awaited; otherwise it changes nothing |
| `SafeStateRuns.SecondResumeRefused` | server/blueprint/safe-state.ts:333-344 | in every run, a resume queued right behind one that settles successfully settles as failed when it starts and changes nothing else, whatever was called in between |
| `SafeStateOutcomes.BlankIsTrimmedAway` | server/blueprint/safe-state.ts:337-339 | an operator identity is refused exactly when trimming white space leaves nothing of it |
| `SafeStateOutcomes.SucceedsExactly` | server/blueprint/safe-state.ts:257-467 | in every interleaving, a settled resume succeeded exactly when its operator has a name, it started in SAFE_STATE, and every row it had to store was stored and the actuator resumed; a settled entry, exactly when it found the safe state or its halt and action worked, and its row was stored |
| `SafeStateOutcomes.SuccessInRun` | server/blueprint/safe-state.ts:396-436 | in every run, a resume that succeeds leaves the blueprint RUNNING, released and with its operator's EXITED row stored; an entry that succeeds leaves it in SAFE_STATE, halted, with its ENTERED row stored and none pending |
| `SafeStateOutcomes.PendingUntilStored` | server/blueprint/safe-state.ts:469-480 | in every run, an audit row that failed to be written stays pending until it is stored |
| `SafeStateOutcomes.VerdictIsRecorded` | server/blueprint/safe-state.ts:514-572 | in every run, a failed exit is anchored and recorded for its operator as a failed recovery when the compensation threw, else as a failed resume when the actuator never resumed and as an aborted exit when it had; the row is in the log when its write succeeds |
| `SafeStateOutcomes.SettlesAlone` | server/blueprint/safe-state.ts:574-581 | stepped by itself, with any answers, the first unsettled transition settles within its remaining awaits |
| `SafeStateOutcomes.ProperTransitionSucceeds` | server/blueprint/safe-state.ts:327-436 | from every moment of every run at which a transition waits in front and starts well, good answers bring it to success within 12 steps |
| `SafeStateStranded.StrandsExactlyStep` | server/blueprint/safe-state.ts:266-268 | under the host a step leaves the blueprint halted, reporting RUNNING and with no entry on the way exactly when it was so before or the step is an entry from RUNNING whose halt throws after taking effect, or returns and the action's guards refuse it |
| `SafeStateStranded.StrandedExactly` | server/blueprint/safe-state.ts:266-268 | in every run under the host the blueprint is stranded exactly when an earlier entry failed in that way |
| `SafeStateStranded.ArmedNeverStrands` | server/blueprint/registry.ts:36-41 | without a field sink, with the opt-in unchanged and a halt that does not throw, no run strands, whoever calls for entries and resumes |
| `SafeStateStranded.OptInWithdrawnStrands` | server/blueprint/runtime-actuator.ts:249-256 | a run under the host in which an armed blueprint is stranded because the opt-in was withdrawn |
| `SafeStateStranded.AdmittedWhileAnchoring` | server/blueprint/watchdog.ts:153-167 | for an armed blueprint without a sink, with the opt-in unchanged and a halt that does not throw, the wrapper's guard admits a tick body on a halted blueprint exactly while an entry from RUNNING is being anchored |
| `SafeStateStranded.AnchoringAdmits` | server/blueprint/watchdog.ts:153-167 | a two-step run that reaches such a moment, with the outputs commanded |
| `SafeStateStranded.StrandedForGood` | server/blueprint/safety-host.ts:236-249 | under the host a stranded blueprint stays so and no tick runs again |
| `StorageLock.ChainKept` | server/storage.ts:34-48 | calls acquire and release the lock one at a time, in call order |
| `StorageLock.OnlyTheHolderRuns` | server/storage.ts:34-48 | in every run, whoever changes the database, directly or through the re-entrant path, acts for the one holder; everybody called earlier has released and everybody called later waits |
| `StorageLock.StatementsExecute` | server/storage.ts:35 | in every run, a statement of the holder, also one made through the re-entrant path, executes at once on the database as it is and is added to what that call ran, and every other call stays as it was |
| `StorageLock.OtherCallsWait` | server/storage.ts:37-42 | in every run, a call from outside only queues at the end, a nested transaction is refused without effect, and neither touches the database |
| `StorageLock.CallersAreToldTheTruth` | server/storage.ts:42-47 | in every run, a call that gets the lock owns the connection unless its BEGIN failed, and is told of success exactly when its callback succeeded and, in a transaction, the COMMIT too |
| `StorageLock.LockNeverBlocks` | server/storage.ts:37-48 | in every run the first unreleased call can acquire the lock or release it, whatever failed before |
| `StorageLock.RunIsolated` | server/storage.ts:799-837 | from any moment at which no call owns the connection and no transaction is open, until a ROLLBACK throws, only the transaction's own statements run between BEGIN and COMMIT or ROLLBACK |
| `StorageLock.SerialEquivalence` | server/storage.ts:31-48 | from any such moment on, until a ROLLBACK throws, the database is what the calls since then produce when run alone in call order on the database of that moment, a rolled-back transaction counting for nothing |
| `StorageLock.OpenExactly` | server/storage.ts:817-832 | in every run a transaction is open exactly while its call runs, or after a ROLLBACK threw with none ended since |
| `StorageLock.RollbackRestores` | server/storage.ts:815-833 | in every run, a failed transaction leaves the state at BEGIN if and only if its ROLLBACK works and no abandoned transaction with changes was open at BEGIN, or its ROLLBACK throws and it had changed nothing |
| `StorageLock.FailedRollbackLeaks` | server/storage.ts:817-832 | a run in which ROLLBACK throws and the abandoned write stays |
| `StorageLock.AcknowledgedWriteIsLost` | server/storage.ts:817-832 | a run in which, after a ROLLBACK threw, a plain call writes and is acknowledged and a later working ROLLBACK undoes its write |
| `Liveness.HighestIsLatest` | server/storage.ts:1426-1480 | the stored row with the highest round is the validator's latest one with a height |
| `Liveness.FreshRoundIsStored` | server/storage.ts:1290-1347 | a fresh round conflicts with nothing, so all its rows are stored in order |
| `Liveness.RunInv` | server/blockchain/liveness-collector.ts:540-639 | at every moment of every run the primed in-memory baseline is the latest acknowledged height of each validator, and the next round ordinal is above all stored ones |
| `Liveness.HistoryIsHonest` | server/blockchain/liveness-collector.ts:282-314 | over rounds, appends with any outcome, skipped ticks, prunes and restarts: ordinals strictly increase, every row compares with the latest height its process knew, and every hit witnesses a strict increase over a row stored before |
| `Liveness.RowsSayWhatWasSeen` | server/blockchain/liveness-collector.ts:282-314 | in every run, a polled row is a miss exactly when its view did not answer with a height, a hit exactly when it answered above the height compared with, and late exactly when it answered with nothing to compare or not above it |
| `Liveness.PruneExactly` | server/storage.ts:1402-1420 | in every run, a prune that works leaves exactly the rows not older than its limit, each as often as before, and one that fails leaves all |
| `Liveness.AppendIsAllOrNothing` | server/storage.ts:1290-1347 | in every run, an append stores all rows of its round in order, or none when it was lost |
| `Liveness.OverlapIsSkipped` | server/blockchain/liveness-collector.ts:540-559 | in every run, a timer that fires during a round is only counted as skipped |
| `Liveness.UpToDateUntilAmbiguous` | server/blockchain/liveness-collector.ts:455-466 | a process knows all rows stored since it read the table until one of its appends is stored and yet reported as failed |
| `Liveness.HonestUntilAmbiguous` | server/blockchain/liveness-collector.ts:570-632 | every row a process stores up to then compares with the latest earlier stored height, whatever earlier processes went through |
| `Liveness.InStepExactly` | server/blockchain/liveness-collector.ts:611-629 | in every run, the latest height of a validator stored is the latest its process knows exactly when the last step that started the process, read the table or stored a height of that validator was not an ambiguous append, or was one that repeated the baseline |
| `Liveness.HonestExactly` | server/blockchain/liveness-collector.ts:570-632 | in every run, a stored row compares with the latest earlier stored height of its validator if and only if that condition holds at its append |
| `Liveness.AmbiguousAppendMisleads` | server/blockchain/liveness-collector.ts:611-632 | a run in which an append that was stored but reported as failed makes the next row compare with the wrong predecessor |
| `ConcurrentMap.RunInv` | server/blockchain/validator-dashboard.ts:353-376 | in every schedule each taken item is with exactly one worker, answered, or refused |
| `ConcurrentMap.MapIsBounded` | server/blockchain/validator-dashboard.ts:353-376 | for every schedule and integer limit each index is called once and in order, at most max(1, limit) calls are in flight, and results hold the answers of their own index |
| `ConcurrentMap.MapIsComplete` | server/blockchain/validator-dashboard.ts:353-376 | when nothing is in flight and nothing was refused, every item's answer is in its place |
| `ConcurrentMap.MapTerminates` | server/blockchain/validator-dashboard.ts:362-374 | after i settled calls exactly n - i are outstanding, so every worker finishes |
| `ConcurrentMap.LimitIsUsed` | server/blockchain/validator-dashboard.ts:361-374 | while no call was refused, as many calls are in flight as the limit, the list and the calls still to settle allow |
| `ConcurrentMap.RejectionStopsWorker` | server/blockchain/validator-dashboard.ts:362-374 | in every schedule, a rejection stops its worker, makes no further call in its place and touches no other worker |
| `SingleFlight.OutboundLoadIsBounded` | server/blockchain/validator-dashboard.ts:569-593 | at most one fleet poll is unsettled, and a poll starts only once the latest answer before it has expired |
| `SingleFlight.RequestsAreServed` | server/blockchain/validator-dashboard.ts:569-593 | every request is served by the unexpired newest answer, by the poll in flight, or by a new poll when there is neither |
| `SingleFlight.PollsCome` | server/blockchain/validator-dashboard.ts:583-592 | in every run, a poll that answers is recorded and served until it expires, one that fails changes nothing that serves, and after its cleanup nothing is in flight |
| `SingleFlight.PollsComeFromRequests` | server/blockchain/validator-dashboard.ts:583-592 | the polls started are exactly those of the requests told to start one, in order |
| `CanonicalJson.PrintInjective` | server/blockchain/state-signature.ts:173-175 | a printed value followed by an end or a separator can be read back in only one way (sections 4 and 7 of RFC 8259) |
| `JsonReader.CharReads` | server/blockchain/state-signature.ts:173-175 | every escaped character is read back as itself by a reader of the escapes of section 7 of RFC 8259 |
| `JsonReader.PrintReads` | server/blockchain/state-signature.ts:173-175 | a JSON reader gets every printed value back, with the text after it left over |
| `StateSignature.SortIsSorted` | server/blockchain/state-signature.ts:177-192 | sorting the entries of an object rearranges them in ascending key order |
| `StateSignature.EquivalentSortsAlike` | server/blockchain/state-signature.ts:177-192 | values that differ only in key order, at any depth, have one canonical form |
| `StateSignature.SortedAlikeIsEquivalent` | server/blockchain/state-signature.ts:177-192 | values with one canonical form differ only in key order |
| `StateSignature.CanonicalTextIsFaithful` | server/blockchain/state-signature.ts:173-192 | canonical texts coincide if and only if the values are equal up to key order |
| `StateSignature.CanonicalTextReadsBack` | server/blockchain/state-signature.ts:173-192 | a JSON reader gets the sorted value back from the canonical text, with nothing left over |
| `StateSignature.CanonicalTextIsOneLine` | server/blockchain/state-signature.ts:173-192 | the canonical text of a value holds no newline |
| `StateSignature.OneMultilineFieldInjective` | server/blockchain/state-signature.ts:111-127 | with newlines in at most one of key, nonce and time, equal messages have equal fields and values equal up to key order |
| `StateSignature.CollisionCollides` | server/blockchain/state-signature.ts:111-127 | for every two of the three fields, two different statements with newlines in those fields that share one message |
| `StateSignature.SigningMessageIsInjective` | server/blockchain/state-signature.ts:111-127 | over all attestations with newlines only in a given set of fields, equal messages are the same as equal statements if and only if the set has at most one field |
| `Quantiles.SortSorts` | server/blueprint/control-loop.ts:656-658 | the sorted scratch is ascending and a permutation of the samples |
| `Quantiles.IndexIsNearestRank` | server/blueprint/control-loop.ts:663-668 | the index picks the least sample that at least p percent of the samples do not exceed |
| `Quantiles.NearestRankUnique` | server/blueprint/control-loop.ts:663-668 | there is only one nearest-rank value |
| `Quantiles.QuantilesAreOrdered` | server/blueprint/control-loop.ts:663-668 | a larger percentile is never smaller, and none exceeds the last sorted sample |
| `Quantiles.LastIsMaximum` | server/blueprint/control-loop.ts:633 | the last sorted sample is the maximum |
| `ControlLoop.RecordKeeps` | server/blueprint/control-loop.ts:551-554 | overwriting the head slot drops the oldest sample of a full ring and adds the new one |
| `ControlLoop.SlotsInUse` | server/blueprint/control-loop.ts:653-660 | the slots in use are, as a multiset, the last min(k, capacity) durations of the history |
| `ControlLoop.ReadingIsRight` | server/blueprint/control-loop.ts:631-633 | the reported percentiles are the nearest-rank ones in order, and the maximum is one |
| `ControlLoop.GaugesSay` | server/blueprint/control-loop.ts:709-715 | after publication the gauges are the sample count, the nearest-rank percentiles and the maximum, or keep their values when there is no sample |
| `ControlLoop.LateCountsScans` | server/blueprint/control-loop.ts:539-542 | the missed deadlines counted are the scans that came more than a period and the tolerance after the one before, each once |
| `ControlLoop.OverlongCountsScans` | server/blueprint/control-loop.ts:549 | the overruns counted are the scans that took more than a period, each once |
| `ControlLoop.BlueprintControlLoop.constructor` | server/blueprint/control-loop.ts:253-268 | an armed loop with an empty window and nothing to publish |
| `ControlLoop.BlueprintControlLoop.Arm` | server/blueprint/control-loop.ts:330-336 | the next scan is measured against now, and the counters outside are up to date |
| `ControlLoop.BlueprintControlLoop.Count` | server/blueprint/control-loop.ts:539-549 | scan, overrun and missed-deadline counts stay the counts of the history: a scan is late when it came more than a period and the tolerance after the one before |
| `ControlLoop.BlueprintControlLoop.Record` | server/blueprint/control-loop.ts:551-554 | the ring holds the last durations after one more scan |
| `ControlLoop.BlueprintControlLoop.TickOnce` | server/blueprint/control-loop.ts:530-562 | one more scan is in the history; when the interval has passed the counters outside and the gauges are brought up to date, otherwise they are untouched |
| `ControlLoop.BlueprintControlLoop.SortWindowIntoScratch` | server/blueprint/control-loop.ts:653-660 | the scratch prefix is the sorted permutation of the last durations, and the rest of it is untouched |
| `ControlLoop.BlueprintControlLoop.Quantile` | server/blueprint/control-loop.ts:663-668 | none without samples, else the scratch value at the nearest-rank index |
| `ControlLoop.BlueprintControlLoop.Read` | server/blueprint/control-loop.ts:617-637 | the reading of the last durations |
| `ControlLoop.BlueprintControlLoop.PublishCounters` | server/blueprint/control-loop.ts:687-701 | published differences add up: each outside counter equals the loop's own count at publication |
| `ControlLoop.BlueprintControlLoop.PublishMetrics` | server/blueprint/control-loop.ts:674-716 | counters up to date and gauges set to the reading; without a sample the percentile gauges keep their values |
| `Layout.JoinShows` | server/blueprints/ladder-diagram-renderer.ts:182-190 | every part of a join is found at its computed start |
| `Layout.AppearsTransitive` | server/blueprints/ladder-diagram-renderer.ts:143-240 | what appears whole in a block appears whole wherever the block does |
| `Ladder.BoxIsRectangular` | server/blueprints/ladder-diagram-renderer.ts:110-137 | a box is a rectangle with one row per text between two borders |
| `Ladder.BoxShowsText` | server/blueprints/ladder-diagram-renderer.ts:115-133 | mnemonic, parameters and the labelled preset all appear unclipped |
| `Ladder.BoxTextsAre` | server/blueprints/ladder-diagram-renderer.ts:119-133 | a box shows the mnemonic, the first parameter, then the labelled preset alone for timers and counters, or every further parameter |
| `Ladder.CentredText` | server/blueprints/ladder-diagram-renderer.ts:408-415 | a text shorter than its width is centred, with at most one more blank on the right |
| `Ladder.BoxWidthIs` | server/blueprints/ladder-diagram-renderer.ts:115 | a box is 14 wide, or exactly as wide as its longest mnemonic or parameter needs |
| `Ladder.InstructionShape` | server/blueprints/ladder-diagram-renderer.ts:59-105 | contacts are bracketed, coils parenthesised, and only boxes have several rows |
| `Ladder.InstructionMarks` | server/blueprints/ladder-diagram-renderer.ts:81-105 | the mark of a contact says whether it is XIO, that of a coil whether it is OTL or OTU, and the tag follows whole |
| `Ladder.PathIsWired` | server/blueprints/ladder-diagram-renderer.ts:181-190 | neighbouring elements do not overlap and the wire joins them on the first row |
| `Ladder.PathIsBlankBelow` | server/blueprints/ladder-diagram-renderer.ts:161-190 | below its last row a block leaves blanks at its column |
| `Ladder.HeightReached` | server/blueprints/ladder-diagram-renderer.ts:153-159 | a path is as high as its tallest block, and one row high when none is taller |
| `Ladder.MaxWidthReached` | server/blueprints/ladder-diagram-renderer.ts:195-201 | a branch is no wider than its widest path |
| `Ladder.BranchHeight` | server/blueprints/ladder-diagram-renderer.ts:210-239 | branch height is the sum of path heights plus one separator per extra path |
| `Ladder.BranchIsRectangular` | server/blueprints/ladder-diagram-renderer.ts:195-239 | all rows of a branch are equally long and end in rails or connectors |
| `Ladder.FrameIsWired` | server/blueprints/ladder-diagram-renderer.ts:216-227 | wires join a path to its connectors, and the row between two paths is blank between its rails |
| `Ladder.BranchShows` | server/blueprints/ladder-diagram-renderer.ts:143-240 | every child of a branch appears whole in its path's rows at its column |
| `Ladder.DrawIsRectangular` | server/blueprints/ladder-diagram-renderer.ts:49-54 | every drawing of every element is a rectangle |
| `Ladder.DescendantsAppear` | server/blueprints/ladder-diagram-renderer.ts:143-240 | whatever is nested in an element, at any depth, appears whole in its drawing at the computed row and column |
| `Ladder.RungIsRailed` | server/blueprints/ladder-diagram-renderer.ts:330-365 | all rows of a rung are equally long and have a power rail at both ends |
| `Ladder.RungShows` | server/blueprints/ladder-diagram-renderer.ts:341-353 | every element of a rung appears whole between the rails at its column |
| `LadderRenderer.RenderBox` | server/blueprints/ladder-diagram-renderer.ts:110-137 | the renderer's box is the drawing |
| `LadderRenderer.Normalise` | server/blueprints/ladder-diagram-renderer.ts:161-179 | padding gives a block one width and the path's height |
| `LadderRenderer.LayOutPath` | server/blueprints/ladder-diagram-renderer.ts:153-192 | the lines of a path are its blocks side by side |
| `LadderRenderer.StackPaths` | server/blueprints/ladder-diagram-renderer.ts:210-239 | framed paths are stacked with separators |
| `LadderRenderer.RenderBranch` | server/blueprints/ladder-diagram-renderer.ts:143-240 | the renderer's branch is the drawing, for arbitrarily nested branches |
| `LadderRenderer.RenderElement` | server/blueprints/ladder-diagram-renderer.ts:49-76 | every element is rendered as its drawing |
| `LadderRenderer.BuildMultiLineRung` | server/blueprints/ladder-diagram-renderer.ts:301-366 | the multi-line rung is the rung of its parts |
| `LadderRenderer.BuildMainLine` | server/blueprints/ladder-diagram-renderer.ts:276-295 | the one-line and the multi-line form both are the rung of the elements' drawings |

## Left out

- IEEE-754 rounding, NaN, infinities and signed zero: values are `real`; the percentile rank is exact arithmetic.
- Latency, allocation and garbage-collection claims; clocks are parameters.
- Node ids are taken to be distinct, as `server/blueprint/types.ts:85` documents; the compiler does not check it.
- Error texts: refusals are data (`CompileError`, `Option`, `bool`) and carry the defect, not the wording.
- The safe-state protocol, the storage lock, the liveness collector, the concurrent map and the poll cache are
  state machines on values and not classes, because their methods are interleaved at every await; update in place
  within one stretch between awaits is a record update.
- Anchoring, hashing and signing: distinct events are assumed to have distinct hashes, and anchoring always answers,
  as the controller's wrapper makes sure; verification of signatures is not modelled.
- Of the safety host only the tick driver and the registration check are modelled; bindings, timers and the
  `hosted` and `rejected` bookkeeping are not. The registry's map and `unregister` are not modelled.
- Naive.RuntimeAgreesWithNaive: tag writes to undeclared names, which the runtime refuses and the baseline's
  `setInput` accepts, are refused on both sides.
- Actuation.BlueprintRuntimeActuator.ApplySafeRecipe: recipes are sequences of distinct targets; JavaScript's
  prototype keys and its placement of integer-like keys within a recipe object are not modelled.
- SafeStateTheorems.FrozenOutputs: outside the tick body, only writers that leave output tags alone are modelled, and
  tick bodies run through the host only; another caller of the watchdog's wrapper could run one while an entry is
  being anchored (`SafeStateStranded.AdmittedWhileAnchoring`).
- StorageLock.SerialEquivalence: while an abandoned transaction is open no serial order is claimed
  (`StorageLock.AcknowledgedWriteIsLost` shows why). A locked call made, and awaited, inside another plain locked call
  deadlocks in the program and is not modelled; callbacks await their own calls. A BEGIN on a connection with an open
  transaction may fail or join it, as the two engines do. A COMMIT that throws is taken not to have landed, and a
  ROLLBACK that throws to leave its transaction open; SQLite's automatic rollback, after which a ROLLBACK throws
  because none is open, is not modelled.
- Liveness.HistoryIsHonest: validator ids are distinct, one process writes, and priming ends before the first round.
  Descriptors, histories and metrics of the collector are not modelled.
- SafeStateStranded.StrandedExactly: stated for runs in which entries come from the host's own ticks; another caller's
  entry can end a stranded state.
- StateSignature.SigningMessageIsInjective: numbers are their printed texts; characters are Unicode scalar values,
  so lone surrogates are not modelled; keys follow one fixed total order.
- The two storage engines and their SQL: tables are sequences with unique keys, statements are functions.
- ControlLoop.BlueprintControlLoop.TickOnce: the scan itself is `Runtime.BlueprintRuntime.TickFast` and is not
  repeated here; loading, its failure counter, health and the recently-missed flag are not modelled.
- LadderRenderer.RenderBranch: a branch without any path makes the renderer fail and is excluded (`Ladder.Drawable`);
  upper-casing covers ASCII letters; the instruction library is a parameter; wire and tag widths are not negative.
- Rung numbers, comments and whole routines around the rung drawings.
- HTTP and WebSocket gateways, the client, contracts and scripts, vendor adapters and simulators, configuration
  parsing, Prometheus registration and logging: input and output, or code over libraries.
- Dispute flags and coherence of validator phases: the flag depends on sample order, the coherence on trigonometry.
