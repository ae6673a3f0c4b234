# Agent pipelines: scheduling, execution, recovery and control

This project models the algorithmic core of a runtime for multi-agent pipelines and proves what it
guarantees. A pipeline is a list of named groups of agents. Groups may declare which earlier groups they
depend on; the runtime orders them, runs them one after the other or level by level in parallel, saves
finished groups so that a failed run can be resumed, and lets a controller decide for every group whether
its agents run one by one ("fine") or merged into one call ("compound").

The model follows the code's own shape. Objects that change are classes (`CompoundCapsule`, `Pipeline`,
`PipelineCheckpoint`, `PipelineState`, `GroupControllerState`, `GranularityController`,
`BoundarySyncManager`), loops are loops, and each method is proved against a specification on values whose
properties are then proved as lemmas. Running a group, the evaluator and the shadow runs are function
parameters. Scores, means and thresholds are reals.

## The parts

- **Graphs** (`Graphs`, `Kahn`, `Capsules`, `Scheduler`, `Rules`, `Levels`). The queue loop of Kahn's
  algorithm occurs in the scheduler and in Rule 3; it is modelled once (`Kahn.Drain`) and used by both. A
  cycle is a path that returns to its start. That the loops fail only on cycles rests on
  `Graphs.StuckSetIsCyclic`: following unfinished dependencies must repeat a node at some point.
- **Building** (`Pipelines`, `Embedding`, `Builder`). Exact conditions for each builder call, what a built
  pipeline can never run into, and what embedding a pipeline in another one preserves.
- **Checkpoints** (`Checkpoint`). The in-memory cache over one file per task, against a plain map.
- **Execution** (`Semantics`, `Merging`, `Attempts`, `ParallelExecutor`, `Recovery`, `SerialExecutor`, `Agreement`).
  `Semantics.Denotation` is the one solution of the equations "the result of a group is what running it gives on
  the task followed by the non-empty outputs of its dependencies". Workers are small state machines
  (waiting, ran, kept, finished); whose turn it is and where the attempt is cut off are left open, so one
  proof covers every order of completion and every crash point. A worker that raises leaves nothing, or at
  most a spoilt controller state of its own group. Every store keeps a log of its saves; over any number of
  interrupted attempts on it, both executors save every group exactly once, and while a process survives no
  controller takes more than one step.
- **Control** (`Policies`, `Series`, `GroupController`, `QualityGate`, `ControllerRuns`, `ControllerLaws`,
  `ControllerWitnesses`, `Governance`). The rolling vote, the cooldown, the efficiency gates, the shadow
  comparison (H2) and the escalation ladder (H3), bounds over every sequence of runs and histories that
  reach them. `ControllerLaws` says what one run leaves on record and what decides, in plain sums over the
  last entries, whatever functions the state is computed with.
- **Granularity** (`Granularity`). The hysteresis machine with backoff over arbitrary histories of calls.
- **Synchronisation** (`SyncManager`). Puts, gets (check and register, wait, second look), timeouts and
  evictions as interleaved atomic regions.
- **Iteration spaces** (`Tags`).

## Where the code and its documentation differ

The model follows the code. The differences found are stated as results:

- `group()` accepts a name that is already taken, and then a cycle is possible although every list of
  dependencies points back (`Pipelines.RepeatedNameClosesCycle`); with distinct names it is not
  (`Pipelines.PlanLevels`).
- The serial loop replaces the previous output instead of accumulating, and an empty output leaves the older
  one in place, while the parallel executor drops it. On chains the two agree exactly when no group but
  the last falls silent after an earlier one has spoken (`Agreement.ChainsAgree`).
- The serial loop hands the controller step, and with it the shadow runs, the task that already contains the
  group's own output: `Agreement.ToldItsOwnAnswer` says exactly when the two tasks are the same. The parallel
  executor hands it the task the group was given. On chains the steps agree after a silent group
  (`Agreement.SilentStepsAgree`) and can differ after any other (`Agreement.OtherStepsDiffer`).
- The builder accepts two agents of one name in a group and a group without agents, and both stop every run
  (`Pipelines.RepeatedAgentStopsRuns`; `Recovery.RunPipeline` and `SerialExecutor.RunPipeline` say exactly when a
  pipeline starts).
- Merged outputs depend on the order of completion as soon as two groups of one level write different texts
  under one key that no later level writes (`Merging.MergeIsScheduleFree`, `Recovery.RunsAgree`).
- A checkpoint opened afresh that saves before it looks drops the groups saved earlier
  (`Checkpoint.PipelineCheckpoint.SaveGroup`, `Checkpoint.SaveBlind`). The executors always look first.
- A subpipeline call that fails half-way keeps the groups embedded so far (`Builder.Pipeline.Subpipeline`).
- Nothing takes a group out of compound mode because of low quality; the recommendation only says so
  (`ControllerRuns.QualityNeverReverts`, `ControllerRuns.AdviceIsNotTaken`); `ControllerWitnesses.AdviceWasNotTaken`
  is a history from the fresh state.
- Once compound runs were too slow on average, the group never ends a run in compound mode again, because
  the average cannot change any more (`ControllerRuns.TooSlowForever`).
- The shadow comparison starts from a model chosen without looking at the group's branching, so the model it
  accepts need not be the one the next run uses (`ControllerRuns.NextRunUsesAccepted` says exactly when).
- De-escalation can take a group below the model its own policy names: `ControllerRuns.FallsBelowPolicy`
  says exactly when, `ControllerWitnesses.FellBelowPolicy` gives a history. A policy that chooses models
  automatically never escalates a group without a fixed model (`ControllerRuns.OneRungAtATime`).
- `decide` acts on a window that is not full yet (`Granularity.ActsOnPartialWindow`); it does not as long as
  the decisions asked for do not outnumber the records observed (`Granularity.ActsOnFullWindow`).
- A getter woken by a put can still end in a KeyError when the item is evicted before its second look
  (`SyncManager.EvictedTooEarly`).
- Two tags can share a key (`SyncManager.ColonsClash`); `SyncManager.AgentsShareKeys` says exactly for which agents.

## Model

| member | source | states |
|---|---|---|
| Graphs.StuckSetIsCyclic | src/agentic_capsules/runtime/scheduler.py:75-80 | nodes that all wait for one another contain a cycle: the completeness half of every ordering loop |
| Graphs.TightRankIsLongestChain | src/agentic_capsules/api/parallel_compiler.py:405-425 | a level index that exceeds the deepest dependency by exactly one is the length of the longest dependency chain |
| Graphs.AcyclicReachesRoot | src/agentic_capsules/core/rules.py:168-176 | without cycles, following dependencies from any node ends at an entry point |
| Kahn.Build | src/agentic_capsules/core/rules.py:99-116 | reading the edge dictionary fails exactly when a known node names an unknown dependency, and otherwise counts each dependency in both tables |
| Kahn.Drain | src/agentic_capsules/runtime/scheduler.py:62-80 | the queue takes every node if and only if there is no cycle, dependencies first, depth by depth, with the entry points in the order given and the others first come, first served |
| Scheduler.CompoundCapsule.ComputeOrder | src/agentic_capsules/runtime/scheduler.py:27-84 | succeeds exactly for distinct leaf names without a dependency cycle, for any edge map; then a permutation of the direct leaves with every dependency first, in the order in which the queue releases them, which is cached; a failure keeps the cached order |
| Scheduler.ScheduleIsUnique | src/agentic_capsules/runtime/scheduler.py:62-80 | a compound has one schedule only: entry points as declared, then whoever is released first, and of those released together whoever comes first in the edge map |
| Scheduler.FreeRunAsDeclared | src/agentic_capsules/runtime/scheduler.py:62-65 | leaves whose entries list no other leaf run in the order of their declaration, and before any that wait |
| Scheduler.ScheduleRespectsEntries | src/agentic_capsules/runtime/scheduler.py:44-60 | whatever an entry of the edge map lists runs before the leaf it is the entry of |
| Rules.CheckLevelTermination | src/agentic_capsules/core/rules.py:88-130 | Rule 3 accepts one level exactly when its child graph is closed and acyclic, and blames a dependency that is really foreign or a cycle that exists |
| Rules.TerminatingLevel | src/agentic_capsules/core/rules.py:99-130 | a level that passes Rule 3 lists no foreign name and has no dependency path back to its start |
| Rules.ChildGraphIs | src/agentic_capsules/core/rules.py:99-116 | a child depends on exactly the children listed in an entry of its name |
| Rules.CheckTermination | src/agentic_capsules/core/rules.py:88-136 | Rule 3 accepts a compound exactly when every level inside it is closed and acyclic |
| Rules.CheckLevelReachability | src/agentic_capsules/core/rules.py:147-187 | the search reaches exactly the children that depend, directly or not, on an entry point, and the error lists precisely the others |
| Rules.DeadlockIsUnreachable | src/agentic_capsules/core/rules.py:168-192 | children that depend on nothing but one another make a level unreachable |
| Rules.CheckReachability | src/agentic_capsules/core/rules.py:147-192 | Rule 4 accepts exactly when that holds at every level |
| Rules.TerminatingIsReachable | src/agentic_capsules/core/rules.py:147-192 | whatever passes Rule 3 passes Rule 4, at all depths |
| Rules.TerminatingIsSchedulable | src/agentic_capsules/runtime/scheduler.py:75-80 | after Rule 3 the leaf graph has no cycle, so the scheduler's defensive check is idle |
| Levels.TopologicalLevels | src/agentic_capsules/api/parallel_compiler.py:376-426 | succeeds exactly for distinct names, closed and acyclic dependencies; the levels then partition the groups, keep declaration order inside, and the level of a group is its longest dependency chain; each error names its cause, and the groups reported as unresolved all wait for one another |
| Levels.DependencyIsEarlier | src/agentic_capsules/api/parallel_compiler.py:405-425 | every dependency of a group lies in an earlier level |
| Levels.LevelsKeepOrder | src/agentic_capsules/api/parallel_compiler.py:405-414 | two groups of one level stand in it as they were declared |
| Pipelines.BuildGroupDeps | src/agentic_capsules/api/parallel_compiler.py:353-374 | with distinct names every group gets exactly the list it declares, in order, and a group that declares nothing its predecessor, or nothing if it is the first |
| Pipelines.DependsAsDeclared | src/agentic_capsules/api/parallel_compiler.py:353-374 | the same of the last group of a name when names are repeated |
| Pipelines.DeclaredComesEarlier | src/agentic_capsules/api/parallel_compiler.py:353-426 | whatever a group of a built pipeline declares, or its predecessor if it declares nothing, lies in an earlier level than the group |
| Pipelines.PointingBackIsAcyclic | src/agentic_capsules/api/builder.py:248-273 | dependencies that all point back in a list of distinct names form no cycle |
| Pipelines.BuiltRuns | src/agentic_capsules/api/parallel_compiler.py:353-374 | a built pipeline never names an unknown group and, with distinct names, never has a cycle |
| Pipelines.RepeatedNameClosesCycle | src/agentic_capsules/api/builder.py:248-278 | three accepted declarations with a repeated name that form a cycle |
| Pipelines.PlanLevels | src/agentic_capsules/api/parallel_compiler.py:144-146 | planning a built pipeline succeeds if and only if its group names are distinct |
| Pipelines.CompileGroup | src/agentic_capsules/api/compiler.py:275-307 | compiling a built group succeeds if and only if its agent names are distinct; agents that declare nothing keep declaration order |
| Pipelines.AgentDependsAsDeclared | src/agentic_capsules/api/compiler.py:282-290 | an agent waits for exactly the agents on its list, or for the one before it if it has no list |
| Pipelines.ListedAgentsRunFirst | src/agentic_capsules/api/compiler.py:282-296 | in every schedule of a group, the agents on the list of an agent come before it |
| Pipelines.LinearGroupKeepsOrder | src/agentic_capsules/api/compiler.py:282-296 | every valid schedule of an implicitly linear group is its declaration order |
| Pipelines.ValidateRunnable | src/agentic_capsules/api/builder.py:1065-1082 | accepts exactly pipelines with a group whose static groups all have agents, and names the first that has none |
| Pipelines.CompileGroups | src/agentic_capsules/api/compiler.py:85-94 | compiles all static groups, each to a valid schedule of its agents, exactly if each can be compiled, and otherwise names the first that cannot; a fan-out group keeps a free slot |
| Pipelines.Prepare | src/agentic_capsules/api/parallel_compiler.py:123-146 | a built pipeline gets its levels if and only if it passes validation, every group compiles and the group names are distinct; an error names the first thing that is wrong, in this order |
| Pipelines.CanStartIs | src/agentic_capsules/api/builder.py:1065-1082 | a pipeline can start exactly if it has groups, and every static group has agents, no two of one name |
| Pipelines.EmptyGroupStopsRuns | src/agentic_capsules/api/builder.py:1078-1082 | a group that was opened and got no agents stops every run |
| Pipelines.AllAgentsAre | src/agentic_capsules/api/builder.py:475-573 | the agents a fan-out may draw on are those of all static groups and no others |
| Pipelines.RepeatedAgentStopsRuns | src/agentic_capsules/api/compiler.py:275-296 | a group with two agents of one name, which the builder accepts, cannot start |
| Embedding.EmbeddingWellFormed | src/agentic_capsules/api/builder.py:732-830 | after embedding, every explicit dependency still names an earlier group |
| Embedding.EmbeddingKeepsDistinct | src/agentic_capsules/api/builder.py:732-740 | distinct group names stay distinct |
| Embedding.EmbeddingKeepsPaths | src/agentic_capsules/api/builder.py:742-752 | embedded groups are connected by a dependency path exactly when their originals were, and no parent group comes to depend on an embedded one |
| Embedding.EmbeddedDependsOn | src/agentic_capsules/api/builder.py:742-752 | an embedded entry point depends on exactly the groups of the parent that were asked for, in order, any other list moves along name by name, and an implicit chain goes on where the parent ends |
| Embedding.EntryReachesRoots | src/agentic_capsules/api/builder.py:742-752 | an embedded entry point reaches every one of those groups |
| Embedding.EmbeddedGroupIs | src/agentic_capsules/api/builder.py:754-830 | agents keep goals and lists under their new names, fan-outs draw on the new name of their source |
| Embedding.EmbeddedAgentsWait | src/agentic_capsules/api/builder.py:790-825 | embedded agents wait for one another exactly as the originals did |
| Embedding.EmbeddingSourced | src/agentic_capsules/api/builder.py:754-775 | every fan-out still finds its source among the agents declared before it |
| Embedding.EmbeddableIs | src/agentic_capsules/api/builder.py:732-830 | a pipeline can be embedded exactly if its group and agent names are distinct, none of their images is taken, and its fan-outs have their sources |
| Embedding.PrefixesStayApart | src/agentic_capsules/api/builder.py:700-704 | names under different prefixes without a slash never collide |
| Builder.NormalizeDeps | src/agentic_capsules/api/builder.py:248-272 | accepts exactly lists of non-empty names of earlier groups other than itself, stripped and without repetitions |
| Builder.AcceptsExactly | src/agentic_capsules/api/builder.py:248-272 | a list is refused exactly if a name on it is empty, the group's own, or unknown |
| Builder.NormalizedIs | src/agentic_capsules/api/builder.py:248-272 | what is stored is every name on the list, stripped, once, where it stood first |
| Builder.StripIs | src/agentic_capsules/api/builder.py:245-260 | stripping takes the white space off both ends and nothing else |
| Builder.ContainsIs | src/agentic_capsules/api/builder.py:513-522 | the placeholder is found wherever it stands in the goal |
| Builder.Pipeline.Group | src/agentic_capsules/api/builder.py:197-281 | exact condition of acceptance, the group appended on success, nothing changed on failure, the pipeline still well formed |
| Builder.Pipeline.Agent | src/agentic_capsules/api/builder.py:283-389 | the same for agents, which go to the group opened last |
| Builder.Pipeline.FanoutGroup | src/agentic_capsules/api/builder.py:475-573 | the same for fan-out groups, whose source must be an agent declared before |
| Builder.Pipeline.Subpipeline | src/agentic_capsules/api/builder.py:579-840 | exact condition of acceptance; bad arguments change nothing, and a collision leaves exactly the groups before the first one that does not fit embedded, with the open group unchanged |
| Checkpoint.PipelineCheckpoint.SaveGroup | src/agentic_capsules/runtime/checkpoint.py:184-203 | equals the plain map update if and only if the task was looked at before or has no other saved groups |
| Checkpoint.PipelineCheckpoint.LoadGroup | src/agentic_capsules/runtime/checkpoint.py:205-230 | answers what the plain map holds and changes nothing visible |
| Checkpoint.PipelineCheckpoint.Clear | src/agentic_capsules/runtime/checkpoint.py:238-253 | removes the task from cache and directory and nothing else |
| Checkpoint.PipelineCheckpoint.GroupsFor | src/agentic_capsules/runtime/checkpoint.py:255-260 | lists exactly the groups saved for the task |
| Checkpoint.Replay | src/agentic_capsules/runtime/checkpoint.py:184-291 | over every history of saves, loads, clears, listings and process restarts, in memory or, if every process looks before it saves, on a directory, all answers and all that is left are those of a plain map |
| Checkpoint.FindsLastSaved | src/agentic_capsules/runtime/checkpoint.py:184-260 | in every history a lookup finds what was saved last of the group, unless the task was cleared or, in memory, the process ended since; a listing names exactly the groups of which a lookup finds something |
| Checkpoint.PutBlind | src/agentic_capsules/runtime/checkpoint.py:197-203 | replacing a task's groups equals adding to them exactly when there is nothing to lose |
| Checkpoint.SaveBlind | src/agentic_capsules/runtime/checkpoint.py:184-203 | a fresh process that saves first loses the groups on disk |
| Semantics.BuildGroupTask | src/agentic_capsules/api/parallel_compiler.py:428-448 | the task is the original one followed by the non-empty outputs of the dependencies in their order |
| Semantics.TaskIsConcatenation | src/agentic_capsules/api/parallel_compiler.py:441-448 | a task grows dependency by dependency, each adding its labelled text, and a missing or empty text adds nothing |
| Semantics.WhatIsSaved | src/agentic_capsules/api/compiler.py:615-626 | what is saved of a result is every output under its key and the final output, a missing text as an empty one |
| Semantics.TaskReadsOnlyDeps | src/agentic_capsules/api/parallel_compiler.py:441-448 | the task of a group depends on nothing but the outputs of its dependencies |
| Semantics.ReplayedIsSaved | src/agentic_capsules/api/compiler.py:594-626 | a replayed group, saved again, gives the same entry |
| Semantics.ReplayedIsSet | src/agentic_capsules/api/compiler.py:594-626 | a replayed result is the one result without unset texts that is saved as the entry |
| Semantics.SolutionExists | src/agentic_capsules/api/parallel_compiler.py:160-256 | for distinct names and acyclic dependencies the equations between the results have a solution |
| Semantics.SolutionIsUnique | src/agentic_capsules/api/parallel_compiler.py:160-256 | they have only one |
| Semantics.RunsOnItsDependencies | src/agentic_capsules/api/parallel_compiler.py:215-245 | in the one solution every group is run from its starting state on the original task with what its dependencies have left |
| Merging.MergeIsScheduleFree | src/agentic_capsules/api/parallel_compiler.py:247-254 | the merged outputs are the same for all orders of completion if and only if for every key the last level that writes it writes one text |
| Merging.UndecidedDiffers | src/agentic_capsules/api/parallel_compiler.py:247-254 | otherwise two orders of completion that give a different text |
| Merging.DisjointKeysAreDecided | src/agentic_capsules/api/parallel_compiler.py:247-254 | groups with output keys of their own always meet that condition |
| Merging.LastLevelWins | src/agentic_capsules/api/parallel_compiler.py:247-254 | the output under a key was written by a group of the last level in which any group writes it |
| ParallelExecutor.ResumeLevel | src/agentic_capsules/api/parallel_compiler.py:165-188 | splits a level into replayed and dispatched groups without loss, dispatching no saved group |
| ParallelExecutor.Advance | src/agentic_capsules/api/parallel_compiler.py:308-347 | run, save and controller step of one worker, each as one step that may raise, keep the invariant of all workers |
| ParallelExecutor.RunWorkers | src/agentic_capsules/api/parallel_compiler.py:221-256 | every interleaving of the workers of a level terminates and is a schedule of their steps; results, files and controller states are then those of the equations, and an interruption at any point leaves them sound, with all that was or became saved still saved |
| ParallelExecutor.RunLevel | src/agentic_capsules/api/parallel_compiler.py:160-256 | one level from any sound checkpoint; the groups dispatched are disjoint from the saved ones, and what is newly saved is among them, once each |
| ParallelExecutor.EveryOrderCanHappen | src/agentic_capsules/api/parallel_compiler.py:247-256 | for each permutation of the dispatched groups there is a schedule of the workers' steps after which they are collected in this order |
| ParallelExecutor.Execute | src/agentic_capsules/api/parallel_compiler.py:119-267 | from any sound checkpoint and in any order of completion, a completed run returns what the plan denotes, clears the checkpoint, dispatches exactly the groups not saved, saves each once and steps each of their controllers once; a crashed one keeps every entry saved before or on the way, and nothing else, and leaves a sound checkpoint; either way no controller is touched but those of dispatched groups, whose step is taken, not taken or, after a crash, half taken |
| Recovery.RunWithRetries | src/agentic_capsules/api/parallel_compiler.py:160-267 | after any number of attempts cut off anywhere, in the same or in fresh processes, the attempt that completes returns what the plan denotes; a group saved before or during an attempt is never dispatched again while the store survives, a store that sees all attempts sees every group saved exactly once, and over all attempts of a process every controller takes at most one step, and none if the process found the group saved |
| Attempts.NeverAgain | src/agentic_capsules/api/compiler.py:594-613 | a group found or left saved by one attempt is found saved by every later one on a surviving store, and not dispatched by it |
| Attempts.AttemptsSaveOnce | src/agentic_capsules/api/parallel_compiler.py:324-342 | if an attempt and the attempts after it save no group twice, neither do all of them together, and together they save all |
| Attempts.AnotherAttempt | src/agentic_capsules/api/compiler.py:594-613 | the same for everything promised of a series of attempts, controllers included: an attempt cut short followed by attempts that keep it keeps it, across raised errors and killed processes |
| Recovery.RestartIsSound | src/agentic_capsules/runtime/checkpoint.py:124-170 | whatever a process leaves behind, a new process can resume from |
| Recovery.FirstAttemptIsSound | src/agentic_capsules/runtime/checkpoint.py:174-180 | with nothing saved and unused controllers every runnable plan can start: the state that all theorems on execution begin in |
| Recovery.RunsAgree | src/agentic_capsules/api/parallel_compiler.py:119-306 | the results of all orders of completion agree if and only if every output key is decided; that the workers can produce each order of a level is EveryOrderCanHappen |
| Recovery.RunPipeline | src/agentic_capsules/api/builder.py:910-928 | a built pipeline runs in parallel, on whatever sound checkpoint earlier processes have left, if and only if it has groups, no static group is without agents or repeats an agent name, and its group names are distinct; the error names the first thing that is wrong and nothing is changed; otherwise all of RunWithRetries holds |
| Recovery.RunsOnWhatItDeclares | src/agentic_capsules/api/parallel_compiler.py:353-448 | a group of a built pipeline is run on the task with the outputs of exactly the groups it declares, in their order, or of its predecessor; its controller is told the same |
| Recovery.WhatIsReturned | src/agentic_capsules/api/parallel_compiler.py:247-306 | a completed run returns the final output of the group declared last and, under every key any group writes and no other, the text of a group in the last level in which one does |
| SerialExecutor.Execute | src/agentic_capsules/api/compiler.py:74-240 | from any sound checkpoint a completed serial run returns the serial results, dispatches exactly the groups not saved, saves each once, and steps each of their controllers once on the task the loop had reached; a crashed one keeps every entry saved before or on the way; controllers of other groups are never touched |
| SerialExecutor.RunAndRecord | src/agentic_capsules/api/compiler.py:146-178 | entered only for a group that is not saved; an interruption between run, save and controller step leaves a sound checkpoint with all earlier entries |
| SerialExecutor.RunWithRetries | src/agentic_capsules/api/compiler.py:114-184 | the same as for the parallel executor after any number of interrupted attempts: the serial results, no saved group dispatched again, every group saved exactly once, at most one step of every controller in a process |
| SerialExecutor.RunPipeline | src/agentic_capsules/api/builder.py:910-937 | a built pipeline with distinct group names runs serially if and only if it has groups and no static group is without agents or repeats an agent name; the error names the first thing that is wrong |
| SerialExecutor.RunsOnLastText | src/agentic_capsules/api/compiler.py:112-178 | every group is run on the task with the text of the last group before it that left one; its controller is told its own text instead, if it left one |
| SerialExecutor.WhatIsReturnedSerially | src/agentic_capsules/api/compiler.py:112-240 | a completed serial run returns the final output of the last group and, under every key any group writes, the text of the last one to do so |
| Agreement.ChainsAgree | src/agentic_capsules/api/compiler.py:112-166 | on a chain both executors hand every group the same task if and only if no group but the last falls silent after an earlier one has spoken |
| Agreement.ChainLevels | src/agentic_capsules/api/parallel_compiler.py:376-426 | the levels of a chain are its groups one by one |
| Agreement.ChainResultsAgree | src/agentic_capsules/api/parallel_compiler.py:353-374 | then merged outputs and final output agree, too |
| Agreement.LinearIsChain | src/agentic_capsules/api/parallel_compiler.py:364-373 | groups that declare no dependencies form a chain |
| Agreement.LinearPipelinesAgree | src/agentic_capsules/api/parallel_compiler.py:353-374 | both, for every pipeline with distinct names whose groups declare no dependencies |
| Agreement.ToldItsOwnAnswer | src/agentic_capsules/api/compiler.py:162-178 | for group names without a closing bracket, the task handed to the controller step is the task the group was given if and only if the group was silent, and otherwise ends in its own answer |
| Agreement.SilentStepsAgree | src/agentic_capsules/api/parallel_compiler.py:343-346 | on a chain without a gap both executors leave the controller of a silent group in the same state |
| Agreement.OtherStepsDiffer | src/agentic_capsules/api/compiler.py:175-178 | after any other group of such a chain there is a controller step with any two different outcomes in the two executors |
| GroupController.CompositionScore | src/agentic_capsules/api/state.py:111-142 | the score lies between 0 and 1 |
| GroupController.ScoreIsMonotone | src/agentic_capsules/api/state.py:111-142 | more overhead, output or tools never lower it, deeper chains never raise it |
| ControllerLaws.ScoreOfModerateGroup | src/agentic_capsules/api/state.py:131-142 | within the usual sizes the score is the weighted sum of the five signals, cut off at 0 and 1 |
| ControllerLaws.ScoreSaturates | src/agentic_capsules/api/state.py:131-142 | beyond 4 agents, 300 tokens, 3 tool calls and the longest possible chain nothing counts any more |
| Series.MeanAgainst | src/agentic_capsules/api/state.py:243-276 | a rolling mean stands to a threshold as the sum of its window stands to as many thresholds |
| Series.SumOfParts | src/agentic_capsules/api/state.py:243-276 | the sum of a series is that of its parts |
| GroupController.GroupControllerState.DoRevert | src/agentic_capsules/api/state.py:293-305 | fine mode, no confidence, and the cooldown restarted at the current number of observations |
| GroupController.GroupControllerState.RecordAndMaybeSwitch | src/agentic_capsules/api/state.py:411-505 | the imperative gates give the state of the functional controller |
| ControllerLaws.WhatIsObserved | src/agentic_capsules/api/state.py:419-438 | context pressure counts as 0 whatever else happened, errors without it as 1, any other scored run as its score, an unscored one as its overhead; the last score is kept |
| ControllerLaws.WhatARunAdds | src/agentic_capsules/api/compiler.py:655-711 | every run adds one such observation, 0 if nothing was measured |
| ControllerLaws.WhatItCost | src/agentic_capsules/api/state.py:440-451 | latency and tokens, if positive, count towards the mode the group was in before the run |
| ControllerLaws.PressureDecomposes | src/agentic_capsules/api/state.py:425-477 | while every run in the window was made under context pressure a group is never composed, and a compound one goes back to fine as soon as its cooldown is over |
| ControllerLaws.WhenCompoundRunsPay | src/agentic_capsules/api/state.py:479-502 | a group is compound after an automatic run exactly if the vote says so, the latencies of the window stay within the threshold in sum, and its tokens stay below those of fine runs, cross-multiplied, where two of each are known |
| ControllerLaws.AdviceAnticipates | src/agentic_capsules/api/state.py:512-541 | watching without touching, the controller advises exactly the step it would take if it might, unless quality gives an alarm, and after acting it has nothing to advise |
| GroupController.CompoundIsEfficient | src/agentic_capsules/api/state.py:479-502 | a call that ends in compound mode has a latency mean within the threshold and a token mean strictly below that of fine runs, and exactly the vote and these gates decide it |
| GroupController.ObservingOnlyKeepsMode | src/agentic_capsules/api/state.py:395-396 | without permission to switch, mode and cooldown stay as they are |
| QualityGate.FirstAccepted | src/agentic_capsules/api/compiler.py:744-757 | the candidate found meets the floor and all before it miss it |
| QualityGate.WalkLadder | src/agentic_capsules/api/compiler.py:744-757 | the loop scores exactly the candidates up to the first accepted one |
| QualityGate.PostRunControllerStep | src/agentic_capsules/api/compiler.py:632-841 | the whole step on the stored state gives the state of the functional controller |
| ControllerLaws.WhatStaysOfAnOutput | src/agentic_capsules/api/compiler.py:694-704 | only a run in fine mode, forced or chosen, leaves its output as the baseline and its verbosity on record |
| ControllerLaws.ForcedRunsOnlyObserve | src/agentic_capsules/api/compiler.py:706-711 | a run in a forced or observing mode changes no mode, cooldown, model, streak or verdict |
| ControllerLaws.EveryVerdictIsRecorded | src/agentic_capsules/api/compiler.py:772-786 | a compound run in automatic mode with an evaluator and a baseline leaves one verdict, on the baseline and its own text in this order; without them, or without escalation, nothing else changes |
| ControllerLaws.VerdictsMoveTheModel | src/agentic_capsules/api/compiler.py:786-841 | a verdict is a failure exactly if the sum of the window falls short of as many floors, or by itself if the sum is zero; the rungs and streaks after it |
| ControllerLaws.OutweighedVerdict | src/agentic_capsules/api/compiler.py:791-795 | a bad verdict that its window outweighs ends the streak of failures and never moves the group up |
| ControllerLaws.FineRunsAreNotJudged | src/agentic_capsules/api/compiler.py:713-720 | a fine run without a shadow comparison leaves verdicts, streaks and model alone |
| ControllerLaws.ShadowRunsDecide | src/agentic_capsules/api/compiler.py:721-770 | the comparison tries the models upwards and stops at the first that meets the floor; that one is kept, all verdicts are on record, and without one the group goes back to fine |
| ControllerLaws.ModelOfCompoundRun | src/agentic_capsules/api/compiler.py:450-513 | override, named model, branching, verbosity in sums of the last ten fine runs, and tools, in this order of precedence |
| ControllerLaws.WhereComparisonsStart | src/agentic_capsules/api/compiler.py:726-731 | a comparison starts from the model of a compound run whose branching is not looked at, with this run's verbosity counted |
| ControllerRuns.RunObserves | src/agentic_capsules/api/compiler.py:707-711 | a run appends exactly one observation and rewrites none |
| ControllerRuns.DwellTime | src/agentic_capsules/api/state.py:453-477 | between two opposite switches of Gate 1 lie at least h1 + h2 - m1 runs, where h1 and h2 are the least numbers of votes that make up the confidence in the two windows, that is 2h - window when the windows are full; in terms of the confidence, c(m1 + m2) - m1 and (2c - 1) * window |
| ControllerWitnesses.DwellBoundIsReached | src/agentic_capsules/api/state.py:453-477 | for every window and every confidence, with the full window as minimum of observations, a history from the fresh state that switches back after exactly 2h - window runs, or one if that is less |
| ControllerRuns.RevertsAreRare | src/agentic_capsules/api/state.py:456-502 | in every history, k reverts by whatever gate were paid for with min_observations * (1 + 2 + 3 + 4 + 5 + 5 + ...) observations, and the cooldown floor never lies in the future |
| ControllerRuns.CooldownIsLinear | src/agentic_capsules/api/state.py:456-459 | that sum is 5k - 10 from the fourth revert on |
| ControllerRuns.RunCools | src/agentic_capsules/api/compiler.py:761-766 | a run reverts at most once, shadow revert included, and then ends in fine mode with the cooldown restarted |
| ControllerRuns.ShadowGateDecides | src/agentic_capsules/api/compiler.py:713-766 | a supervised fine group turns compound if and only if the vote switches it and some candidate meets the floor after all earlier ones missed it |
| ControllerRuns.NextRunUsesAccepted | src/agentic_capsules/api/compiler.py:468-513 | exactly when the next run uses the accepted model |
| ControllerRuns.AcceptedButNotUsed | src/agentic_capsules/api/compiler.py:734-736 | a run after which it does not |
| ControllerRuns.CompoundIsVetted | src/agentic_capsules/api/compiler.py:713-770 | in every supervised history a group is in compound mode only since a shadow comparison accepted a model |
| ControllerRuns.TooSlowForever | src/agentic_capsules/api/state.py:486-491 | after the latency gate has found compound runs too slow, no later run under the same policy ends in compound mode |
| ControllerRuns.QualityNeverReverts | src/agentic_capsules/api/compiler.py:772-841 | a compound group's next mode does not depend on the evaluator |
| ControllerRuns.AdviceIsNotTaken | src/agentic_capsules/api/state.py:512-541 | the recommendation to decompose for low quality goes with staying in compound mode whenever the gates are satisfied |
| ControllerWitnesses.AdviceWasNotTaken | src/agentic_capsules/api/state.py:512-541 | two runs from the fresh state after which the recommendation is to decompose, and any third run that is judged stays compound |
| ControllerRuns.OneRungAtATime | src/agentic_capsules/api/compiler.py:786-841 | exactly when a run moves a group on the ladder, by one rung, and what becomes of the streaks |
| ControllerRuns.FallsBelowPolicy | src/agentic_capsules/api/compiler.py:821-841 | a run takes a group below the model its policy names exactly when it steps down from an override that is this model, and there is a cheaper one |
| ControllerWitnesses.FellBelowPolicy | src/agentic_capsules/api/compiler.py:821-841 | four runs from the fresh state after which a two-phase policy runs its group with the standard model |
| ControllerRuns.MovesAreEarned | src/agentic_capsules/api/compiler.py:786-841 | in every history escalations * min_failures + de-escalations * decay_window plus the running streak never exceed the evaluations, and the streaks exclude each other |
| Governance.OneObservationPerRun | src/agentic_capsules/api/parallel_compiler.py:308-347 | a pipeline run observes each dispatched group once, reverts it at most once, and leaves replayed groups' controllers alone |
| Governance.ParallelLeads | src/agentic_capsules/api/parallel_compiler.py:308-347 | any attempt of the parallel executor, completed or cut short, leaves a controller alone or takes it through the one run the dispatched group made; a completed one takes it through that run |
| Governance.SerialLeads | src/agentic_capsules/api/compiler.py:146-178 | the same for the serial executor, whose controllers are told the task with the group's own answer |
| Governance.ControllerSeesRuns | src/agentic_capsules/api/parallel_compiler.py:308-347 | over every sequence of attempts and runs of either executor, completed or not, a group's controller is what the runs it has seen, in order, make of it |
| Governance.BoundsCarryOver | src/agentic_capsules/api/state.py:456-502 | hence the cooldown and ladder bounds hold of the runs that the controller of a group has seen, over all attempts |
| Granularity.GranularityController.Observe | src/agentic_capsules/controller/granularity.py:134-136 | the oldest record makes room when the window is full |
| Granularity.GranularityController.Decide | src/agentic_capsules/controller/granularity.py:138-234 | action, streaks, backoff state and recorded reason of one decision |
| Granularity.GranularityController.Reset | src/agentic_capsules/controller/granularity.py:245-252 | back to the initial state |
| Granularity.WindowIsRecent | src/agentic_capsules/controller/telemetry.py:264-271 | in every history the window holds exactly the last records observed since the last reset |
| Granularity.ActsExactlyWhenConvinced | src/agentic_capsules/controller/granularity.py:176-216 | a decision acts if and only if its trigger has held for the required number of decisions, composing first |
| Granularity.ActsWhenTriggered | src/agentic_capsules/controller/granularity.py:159-216 | a decision composes exactly if the coordination tokens of the window exceed their share of its tokens, or its errors their share of its items, for long enough; it decomposes, unless composing is called for, exactly if utilization in sum exceeds its threshold, or there is room for more work and little coordination, for long enough |
| Granularity.PersistenceActs | src/agentic_capsules/controller/granularity.py:159-293 | whatever records come and go, a signal seen at every decision is acted upon at the decision that completes the streak and at none before; the streak is one, two or three windows long depending on the direction and the base |
| Granularity.ActsOnFullWindow | src/agentic_capsules/controller/granularity.py:145-157 | in every history the window is full exactly when enough records were observed since the last reset, and an action rests on a full window as long as decisions do not outnumber records |
| Granularity.ActsOnPartialWindow | src/agentic_capsules/controller/granularity.py:145-157 | a history in which a single record, decided upon often enough, makes the controller compose |
| Granularity.ReasonIsTrue | src/agentic_capsules/controller/granularity.py:184-216 | the reason recorded with a decision names a signal that does cross its threshold, a streak of exactly its length, and no signal that another one takes precedence over |
| Granularity.DirectionChangesAreRare | src/agentic_capsules/controller/granularity.py:265-293 | in every history f changes of direction took window * (1 + min(b, 3) + ... + min(b^f, 3)) decisions, and the two streaks are never both positive |
| Granularity.EffortIsLinear | src/agentic_capsules/controller/granularity.py:282-283 | that sum in closed form for every base |
| SyncManager.BoundarySyncManager.PutSync | src/agentic_capsules/runtime/sync_manager.py:109-122 | stores the item and sets the registered event in one region |
| SyncManager.BoundarySyncManager.BeginGet | src/agentic_capsules/runtime/sync_manager.py:136-143 | finds the item or registers an event before releasing the lock |
| SyncManager.BoundarySyncManager.Evict | src/agentic_capsules/runtime/sync_manager.py:203-222 | drops exactly the stored keys with the prefix, with their events, and counts them |
| SyncManager.BoundarySyncManager.EvictTag | src/agentic_capsules/runtime/sync_manager.py:224-238 | drops one key with its event, if it is stored |
| SyncManager.RunConsistent | src/agentic_capsules/runtime/sync_manager.py:109-169 | over all interleavings a registered event is set exactly when its key is stored, keys do not share events, and an unset event that someone waits for is never dropped |
| SyncManager.NoLostWakeup | src/agentic_capsules/runtime/sync_manager.py:145-149 | whatever the other threads do, a waiting getter is released if and only if its key is put |
| SyncManager.ReleasedGetterEnds | src/agentic_capsules/runtime/sync_manager.py:150-169 | a released getter ends with the current item of its key, or with a KeyError exactly if the last step that concerned the key in the meantime was an eviction |
| SyncManager.NoKeyErrorWithoutEviction | src/agentic_capsules/runtime/sync_manager.py:150-169 | as long as nothing is evicted no get ends in a KeyError |
| SyncManager.EvictedTooEarly | src/agentic_capsules/runtime/sync_manager.py:213-238 | five steps after which a released getter meets a KeyError |
| SyncManager.OnlyPutItemsAreReturned | src/agentic_capsules/runtime/sync_manager.py:124-169 | every item returned was put under the same key before |
| SyncManager.LastPutIsStored | src/agentic_capsules/runtime/sync_manager.py:109-122 | over all interleavings a key holds the item put last under it, or nothing if it was evicted since |
| SyncManager.GetFindsLastPut | src/agentic_capsules/runtime/sync_manager.py:136-143 | a get that need not wait returns the item put last |
| SyncManager.ReleasedGetsLastPut | src/agentic_capsules/runtime/sync_manager.py:150-169 | a released getter returns the item put last before its second look |
| SyncManager.EveryGetEndsOnce | src/agentic_capsules/runtime/sync_manager.py:124-169 | every get begun is still waiting or has exactly one outcome |
| SyncManager.PlainTagsHaveOwnKeys | src/agentic_capsules/core/capsule.py:46-48 | tags of agents without a colon in their names never share a key |
| SyncManager.AgentsShareKeys | src/agentic_capsules/core/capsule.py:46-48 | two agents have tags with the same key if and only if the name of one, with the separator, begins the name of the other with the separator |
| SyncManager.ColonsClash | src/agentic_capsules/core/capsule.py:46-48 | two tags with colons that do |
| Tags.Size | src/agentic_capsules/core/tag.py:85-91 | the loop computes the product of the dimension lengths, which is positive |
| Tags.Enumerate | src/agentic_capsules/core/tag.py:93-109 | the i-th task id is built from the values at the mixed-radix digits of i |
| Tags.JoinIs | src/agentic_capsules/core/tag.py:103-108 | an id lists name and value of each dimension in order |
| Tags.RankOfDigits | src/agentic_capsules/core/tag.py:104-108 | no two numbers have the same digits |
| Tags.DigitsOfRank | src/agentic_capsules/core/tag.py:104-108 | every position in the space is reached |
| Tags.InDictionaryOrder | src/agentic_capsules/core/tag.py:93-109 | of two ids the one with the earlier value comes first, at the first dimension where they part |
| Tags.Partition | src/agentic_capsules/core/tag.py:111-124 | refuses sizes below one; otherwise the batches concatenate to the enumeration, are as few as possible, and all but the last are full |

## Left out

- Language-model adapters, prompts, tools, token counting and retries inside a group: running a group is a function of its name, its controller state and its task, so a model that answers the same prompt differently is not covered.
- Telemetry: the signal measured in a run is a parameter; the sums over telemetry records that produce it are not modelled, nor is the order in which telemetry is collected.
- Expansion of fan-out groups at run time, and conditions that skip agents: only their declaration and dependencies are modelled.
- Of the result of a run, in either executor, only outputs and final output are modelled, not modes, confidences and recommendations.
- `SerialExecutor.RunPipeline`: group names are distinct. The serial executor also runs a pipeline that repeats a group name; results, checkpoint entries and controllers are then shared between the groups of that name, which is not modelled. The parallel executor refuses it (`Recovery.RunPipeline`).
- `Governance.ParallelLeads`: a controller step that is interrupted half-way may leave any state of its own group, of which nothing can be said; the lemma leaves out a group in which this happened.
- `Governance.SerialLeads`: the same.
- Conflicts between tools, an invalid `mode` and clashing checkpoint arguments, which also stop a run before its first group.
- `ParallelExecutor.Execute`: does not model the limit on worker threads; every interleaving of all workers of a level is covered, which includes those of fewer threads. Running without a checkpoint is running with an empty one in memory.
- `Recovery.RunWithRetries`: attempts may be cut off at any step, but writing a checkpoint file is one step and succeeds.
- `Checkpoint.Replay`: one process at a time; file syntax, failed reads and writes, and concurrent processes on one directory are not part of this model.
- `Builder.Pipeline.Subpipeline`: adapters, tools, models, conditions and item extractors of embedded agents are not carried along.
- The renaming of outputs by agent when a result is assembled.
- Persistence of controller states in a store, where the fine baseline is not kept and the reactive gate never fires: states live in memory.
- Last signal and last single quality score, which no decision reads.
- Rounding of floating-point numbers.
- Asynchronous put and get, and the external backend of the synchronisation manager.
- Rules 2, 5 and 6, topology classification, calibration, profiling and the evaluators themselves.
