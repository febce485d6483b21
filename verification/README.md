# Heat's orchestration engine: a Dafny model

This project models the algorithms at the core of Heat's engine in Dafny and proves what they promise.

- `Graph.dfy`, `Dependencies.dfy`: the two-way dependency graph. The graph is the dictionary with default values that the
  program uses, so looking a key up may bring back an empty node. Sorting is destructive, as in the source.
- `TaskInvariant.dfy`, `TaskProgress.dfy`, `Scheduler.dfy`: task runners and the dependency task group. A subtask is a
  co-routine that yields any finite number of times and then returns or raises, or a plain callable. The order in which
  dictionaries are iterated is left open, so every result holds for every order. A group records each state its runners go
  through; safety is a statement about that whole record.
- `Resource.dfy`, `StackUpdate.dfy`, `UpdateOrder.dfy`, `Restart.dfy`: resource states and the generators that change them,
  the update protocol over the existing, the new and the backup stack, the combined graph that orders it, and the restart of a
  resource. Resources and stacks are objects; a plugin answers a call in any way it likes.
- `ScalingTemplate.dfy`, `AutoScaling.dfy`, `Adjustment.dfy`: templates of scaling groups, rolling replacement, and scaling
  adjustments. After an update the instances may be listed in any order; results that need an order say so.
- `StackLock.dfy`: the lock table, every interleaving of requests on engines that may crash, and the lock object as code that
  is interrupted between its transactions.
- `Joins.dfy`, `Identifier.dfy`, `ShortId.dfy`: reducing and resolving `Fn::Join`, ARNs and the identifiers of resources and
  events, and short ids.

What a step is given from outside (how a plugin call ends, whether an engine answers, whether a cooldown is in progress, which
exception a task raises, which ids are generated) is a parameter or an arbitrary choice in the model.

## Where the code does not do what one might expect

- A round of the task group does not always advance an unfinished subtask: when an exception cut the previous round short, a
  completed subtask may still be in the graph, and the round does nothing but delete it. `IdleRound` derives such a round from the
  start of a group of three. A round that raises nothing advances a body if and only if some subtask was ready when it began
  (`TryRound`), which it was if the round before it raised nothing (`SomethingReady`). So there are at most as many idle rounds as
  exceptions caught, and the number of all rounds is bounded too (`Run`).
- With aggregated exceptions a plain callable that was cancelled can still be called, because an empty node for it is in the graph
  (`CancelledCallableIsCalled`). `CancelledIsStarted` says after which failures the next round starts a cancelled subtask, and that
  this runs the body of a callable only; `CancelRecursively` says exactly which nodes come back. One that was cancelled and deleted
  before may stay out of the graph (`CancelledStaysOut`).
- An existing resource that is backed up is marked (UPDATE, COMPLETE), even if it was FAILED. So a rollback may swap in a resource
  that was never valid: `BrokenComesBack` runs such an update and rollback, and `CreateResource` says exactly when a backup is
  swapped in.
- Swapping in a backup looks up a name that may be missing, in exactly one case: a valid backup without a namesake in the existing
  stack (`CreateResource`). An update keeps the two stacks such that this cannot happen in the next one (`CanStartAgain`).
- A rolling replacement of an empty group, or with a batch size of zero, divides by zero; with a negative batch size its loop never
  ends by itself (`Replace`, `NegativeBatchNeverEnds`).
- Instances that are updated in place keep their age. The step that gives the temporary capacity up then drops instances that were
  already updated, and fewer than MinInstancesInService may be left in service while the last batch changes. `InPlaceSafe` is the
  exact condition under which that does not happen.
- A group that is already larger than MaxSize is not resized at all by a request that is still too large, even a smaller one
  (`Resizing`). While a cooldown is in progress, changed bounds are not enforced (`UpdateSizes`).
- Reducing joins early raises for a delimiter that is still a reference, although resolving the join later would succeed
  (`EarlyReductionMayRaise`). It raises only for joins that `Reducible` excludes.
- The ARN of an identifier with an empty stack name or id is not a valid ARN. An event id with a slash is not given back, nor is
  an empty resource name, and the path of an owner is given back in a normal form.
- A UUID without a version makes `get_id` raise a TypeError while it formats the message of its ValueError.

## Model

| member | source | states |
|---|---|---|
| Graphs.EdgesRoundTrip | heat/engine/dependencies.py:115-124 | a graph is given back exactly when it is rebuilt from its list of edges, leaves and single nodes included |
| Graphs.WithEdgesContents | heat/engine/dependencies.py:173-184 | adding edges adds the keys and the requirements they mention, in both directions, and no others |
| Graphs.WithEdgesMirrored | heat/engine/dependencies.py:164-184 | whatever edges it is built from, the two sides of a graph mirror each other |
| Graphs.ReverseMirrored | heat/engine/dependencies.py:43-45 | reversing keeps the mirror, turns every requirement round, and undoes itself |
| Graphs.ReverseAcyclic | heat/engine/dependencies.py:111-113 | a reversed graph has a cycle if and only if the graph has |
| Graphs.NoLeafIsCyclic | heat/engine/dependencies.py:143-158 | a graph in which every node requires something has a cycle |
| Graphs.TopoOrderIsAcyclic | heat/engine/dependencies.py:143-158 | a graph that can be sorted has no cycle |
| Dependency.SortLeaf | heat/engine/dependencies.py:143-158 | taking a leaf out keeps what a partial sort promises |
| Dependency.StuckIsCyclic | heat/engine/dependencies.py:143-158 | a sort that finds no leaf has met a cycle of the original graph |
| Dependency.AcyclicHasOrder | heat/engine/dependencies.py:143-158 | every acyclic graph has an order |
| Dependency.Graph.TopoSort | heat/engine/dependencies.py:143-158 | raises if and only if the graph has a cycle; otherwise yields every key once, after all that it requires |
| Dependency.Graph.DelItem | heat/engine/dependencies.py:126-135 | removes a key, its mentions in both directions, and brings back an empty node for what it names that is gone |
| Dependency.DeleteKeepsMirror | heat/engine/dependencies.py:126-135 | a deletion keeps the mirror if and only if the key requires nothing but itself |
| Dependency.AddEdgeKeepsMirror | heat/engine/dependencies.py:173-184 | adding an edge keeps the mirror |
| Dependency.Graph.Edges | heat/engine/dependencies.py:115-124 | lists every requirement, and an edge to nothing for a key with none, and nothing else |
| Dependency.Graph.Copy | heat/engine/dependencies.py:107-109 | a new graph with the same nodes |
| Dependency.Graph.ReverseCopy | heat/engine/dependencies.py:111-113 | a new graph with every node turned round |
| Dependency.Dependencies.constructor | heat/engine/dependencies.py:164-171 | the graph is the one that the edges describe |
| Dependency.Dependencies.AddEdge | heat/engine/dependencies.py:173-184 | one edge, or one key alone, is added to both sides |
| Dependency.Dependencies.CopyGraph | heat/engine/dependencies.py:234-239 | a copy, or a reversed copy |
| Dependency.Dependencies.Iterate | heat/engine/dependencies.py:241-247 | sorts a copy, in either direction, or raises for exactly the cyclic graphs |
| Dependency.Dependencies.GetEdges | heat/engine/dependencies.py:203-214 | the recursion ends on an acyclic graph with the requirements among all transitive requirers of a key |
| Dependency.Dependencies.GetItem | heat/engine/dependencies.py:195-221 | raises for an unknown key only; otherwise the subgraph induced by the key and all its transitive requirers |
| Dependency.PartialGraphEdges | heat/engine/dependencies.py:203-221 | the edges collected are those of the induced subgraph |
| Dependency.OnlyLeaf | heat/engine/dependencies.py:195-202 | the key asked for is the only leaf of its subgraph |
| Dependency.FirstInOrder | heat/engine/dependencies.py:195-221 | it comes first in every order of the subgraph |
| Dependency.LastInReverse | heat/engine/dependencies.py:195-221 | and last in every reversed order |
| Scheduler.TaskRunner.Next | heat/engine/scheduler.py:186-193 | one advance of the generator, which may end or raise; an exhausted one ends |
| Scheduler.TaskRunner.Start | heat/engine/scheduler.py:144-166 | a co-routine is advanced once, a plain callable runs to its end |
| Scheduler.TaskRunner.Step | heat/engine/scheduler.py:168-195 | one advance unless it is done; reports completion |
| Scheduler.TaskRunner.Cancel | heat/engine/scheduler.py:207-215 | marks the runner done, and advances nothing |
| TaskInvariant.InvAtStart | heat/engine/scheduler.py:310-311 | the invariant of the group holds before anything has started |
| TaskInvariant.ReadyIsSettled | heat/engine/scheduler.py:360-369 | a subtask that requires nothing in the graph any more has had all its original requirements completed |
| TaskInvariant.InvAdvance | heat/engine/scheduler.py:330-337 | advancing a ready subtask keeps the invariant |
| TaskInvariant.InvGhostStart | heat/engine/scheduler.py:360-369 | so does starting a cancelled co-routine whose empty node came back |
| TaskInvariant.GhostStartAdvancesOnlyCallables | heat/engine/scheduler.py:144-166 | a start after the cancellation, which `TaskProgress.CancelledIsStarted` shows to happen, leaves a body alone if and only if it is a co-routine |
| TaskInvariant.InvDelete | heat/engine/scheduler.py:335-337 | deleting a finished subtask keeps the invariant, and takes out no other one that was not cancelled |
| TaskInvariant.WaitersNotStarted | heat/engine/scheduler.py:351-358 | whatever waits, through any chain, for a subtask that has not completed has not been started |
| TaskInvariant.WaitersCancelled | heat/engine/scheduler.py:351-358 | whatever waits, through any chain, for a failed or cancelled subtask is cancelled |
| TaskInvariant.EnterDependent | heat/engine/scheduler.py:354-356 | the recursion goes only to subtasks that may be cancelled, and never back |
| TaskInvariant.CancelEnds | heat/engine/scheduler.py:351-358 | cancelling recursively has marked exactly the transitive requirers done |
| TaskInvariant.InvFail | heat/engine/scheduler.py:338-342 | after a failure has been handled the invariant holds, nothing but the subtask has failed, and nothing that completed was lost |
| TaskProgress.Candidate | heat/engine/scheduler.py:328-337 | while some subtask is not done, there is one that the next round starts, advances or deletes |
| TaskProgress.SomethingReady | heat/engine/scheduler.py:328-337 | after a round that raised nothing, some unfinished subtask is ready |
| TaskProgress.IdleRound | heat/engine/scheduler.py:328-342 | from the start of a group, through a first round that raises, to a round that can advance no unfinished subtask, although there is one |
| TaskProgress.RoundAdvances | heat/engine/scheduler.py:328-337 | a round that raises nothing advances exactly the bodies of the subtasks that are ready when it begins |
| TaskProgress.RoundTells | heat/engine/scheduler.py:328-337 | after such a round every runner is where the round takes it, whatever the order of its loops; there is less to do, and nothing completed is left in the graph |
| TaskProgress.RoundPays | heat/engine/scheduler.py:328-342 | every idle round is paid for by an exception that was caught before it |
| TaskProgress.CancelledIsStarted | heat/engine/scheduler.py:330-331 | after a failure the next round starts a waiting subtask if and only if no round had started it and it either is still in the graph or has a requirement that was cancelled just now; that runs a body if and only if it is a plain callable |
| TaskProgress.CancelledCallableIsCalled | heat/engine/scheduler.py:328-342 | from the start of a group, through a first round that raises, to a round that calls a cancelled callable |
| TaskProgress.CancelledStaysOut | heat/engine/scheduler.py:351-358 | a state in which the cancellation brings back a direct dependent, but not the cancelled subtask behind it |
| TaskProgress.CancelledByTasks | heat/engine/scheduler.py:324-358 | in a finished run a subtask is cancelled if and only if some transitive requirement of it has a task that raises |
| TaskProgress.StartKeeps | heat/engine/scheduler.py:330-331 | starting a ready subtask keeps safety and the invariant, and leaves less to do |
| TaskProgress.StepKeeps | heat/engine/scheduler.py:335-337 | so does stepping a running one and deleting it once it is done |
| TaskProgress.FailKeeps | heat/engine/scheduler.py:338-342 | so does handling a failure, which adds just this subtask to the failed ones |
| TaskProgress.CancelledHasCause | heat/engine/scheduler.py:351-358 | a cancelled subtask has a transitive requirement that failed |
| TaskProgress.InvGivesPartition | heat/engine/scheduler.py:324-349 | when all is done: cancelled if and only if a transitive requirement failed, and otherwise failed or completed as the subtask itself determines |
| TaskProgress.OutcomeIndependentOfSchedule | heat/engine/scheduler.py:324-349 | two finished runs complete, fail and cancel the same subtasks, whatever the scheduling |
| TaskProgress.AllCompleted | heat/engine/scheduler.py:328-349 | a run that ends without an exception has completed every subtask |
| Scheduler.DependencyTaskGroup.Create | heat/engine/scheduler.py:296-318 | raises for exactly the cyclic graphs; otherwise one runner for each key, none started |
| Scheduler.DependencyTaskGroup.CancelRecursively | heat/engine/scheduler.py:351-358 | terminates on an acyclic graph; marks the subtask and all its transitive requirers done, no others; of those requirers exactly the ones still in the graph, or with a requirement that was not done before, have an empty node afterwards |
| Scheduler.DependencyTaskGroup.StartReady | heat/engine/scheduler.py:330-331 | one pass over the ready subtasks, safe and with progress, until one raises |
| Scheduler.DependencyTaskGroup.StepAllRunning | heat/engine/scheduler.py:335-337 | one pass over the running ones; what completes is taken out of the graph |
| Scheduler.DependencyTaskGroup.TryRound | heat/engine/scheduler.py:329-337 | if nothing is raised, every runner is where the round takes it: exactly the ready bodies were advanced, less is left to do, and nothing completed is left in the graph; if the caller throws at the yield, the group stops there unless a start has raised before, and steps nothing in either case |
| Scheduler.DependencyTaskGroup.CatchFailure | heat/engine/scheduler.py:338-342 | the exception is recorded once, or ends the group with every runner done |
| Scheduler.DependencyTaskGroup.Run | heat/engine/scheduler.py:324-349 | in every run no body is advanced before all its original requirements have completed; the run ends within a bounded number of rounds with every runner done, and with no more idle rounds than caught exceptions; the round at whose yield the caller throws is reached undisturbed or ends in an exception of its own, and if the first, it is the last, the outcome is Interrupted, and it has stepped nothing; if it aggregates, each failed subtask contributes exactly one exception and the others are partitioned into completed and cancelled |
| UpdateOrder.CombinedAcyclic | heat/engine/update.py:173-194 | the combined graph has a cycle if and only if one of the two stacks' graphs has |
| UpdateOrder.UpdateRespectsOrder | heat/engine/update.py:182-192 | in every order of it, new resources follow their requirements, old ones go after those that require them, and each after its replacement |
| UpdateOrder.RebuiltIsCombined | heat/engine/update.py:173-194 | the graph built from the three lists of edges is the combined graph |
| UpdateOrder.UpdateDependencies | heat/engine/update.py:173-194 | the method builds it from the edge lists of both stacks |
| Resources.Stack.SetItem | heat/engine/parser.py:258-261 | the stack maps the name to the resource and becomes its owner |
| Resources.Stack.DelItem | heat/engine/parser.py:263-265 | the name is gone; the resource keeps its owner |
| Resources.ActionGenerator.Drive | heat/engine/resource.py:403-451 | the object does what the transition function says for next, throw and close |
| Resources.EventsKeepConsistent | heat/engine/resource.py:671-722 | after any sequence of next, throw and close, state, position and finished work agree |
| Resources.ActionSettles | heat/engine/resource.py:403-451 | over all sequences of events: FAILED if and only if a call that is made raises or the driver throws in or closes first; COMPLETE if and only if the handler returns and a later check, if declared, says so; else still in progress |
| Resources.EventsDecide | heat/engine/resource.py:403-451 | how the calls in the events end decides which of the three it is |
| Resources.CompleteMeansDone | heat/engine/resource.py:424-432 | COMPLETE has had its handler return, and after it a check return true, where the plugin declares them; deletion is waited for even without a handler |
| Resources.RetainedIsUntouched | heat/engine/resource.py:688-704 | a resource to be retained is COMPLETE at once without any call, and so is an action without a handler |
| Resources.NothingToDelete | heat/engine/resource.py:678-682 | deleting what was deleted or never created changes nothing, whatever is done to the generator |
| Resources.NeverLeftInProgress | heat/engine/resource.py:671-722 | left IN_PROGRESS in exactly one case: a deletion that finds (INIT, IN_PROGRESS) |
| Resources.UnstartedHasNoEffect | heat/engine/resource.py:403-451 | a generator that was never advanced changes no state |
| StackUpdates.DeleteSegmentIsDriven | heat/engine/resource.py:671-722 | the deletions of the update protocol are those of the generator |
| StackUpdates.CreateSegmentIsDriven | heat/engine/resource.py:403-451 | and so are the creations |
| StackUpdates.StackUpdate.constructor | heat/engine/update.py:33-43 | the invariant holds for any two stacks that own their resources |
| StackUpdates.StackUpdate.AdvanceClean | heat/engine/update.py:77-82 | a segment of cleaning up an old backup keeps the invariant of its name |
| StackUpdates.StackUpdate.ExchangeStacks | heat/engine/update.py:84-90 | the two resources change places and owners |
| StackUpdates.StackUpdate.BackUp | heat/engine/update.py:114-121 | the existing resource goes to the backup stack as (UPDATE, COMPLETE), the new one takes its place, and nothing live is overwritten |
| StackUpdates.StackUpdate.Swap | heat/engine/update.py:102-109 | a valid backup comes back, and what it replaces is kept as the backup |
| StackUpdates.StackUpdate.CreateResource | heat/engine/update.py:92-122 | keeps the invariant; swaps in the backup exactly when it is live and COMPLETE and has a namesake; looks up a missing name exactly when there is none; puts the new resource in place if no backup is live |
| StackUpdates.StackUpdate.AdvanceNew | heat/engine/update.py:124-142 | a segment for a new resource keeps the invariant, takes the name where the plugin's answers say, and never looks up a missing name from a sound start |
| StackUpdates.TurnAnswers | heat/engine/update.py:124-142 | the existing resource stays if and only if it answers that there is nothing to do or that it has updated itself; a demand for replacement always ends in the backup or the new resource; finished means that one of these is in place |
| StackUpdates.TurnEnds | heat/engine/update.py:92-142 | no exception of the plugin is lost, and the state of the resource tells how its operation ended |
| StackUpdates.OldTurnEnds | heat/engine/update.py:154-171 | the same for old resources; finished only when backup, and the old resource if it has no successor, are no longer live |
| StackUpdates.StackUpdate.AdvanceOld | heat/engine/update.py:154-171 | a segment for an old resource keeps the invariant |
| StackUpdates.StackUpdate.OthersStay | heat/engine/update.py:71-76 | a step for one name leaves the invariant of all others alone |
| StackUpdates.StackUpdate.LiveIsHeld | heat/engine/update.py:84-171 | at every yield every live resource is in the existing or the backup stack, under its name and owned by it |
| StackUpdates.StackUpdate.DoneIsClean | heat/engine/update.py:51-69 | when all is done the existing stack has the names of the new one, and no backup is live |
| StackUpdates.StackUpdate.DoneAsAnswered | heat/engine/update.py:124-142 | when all is done each name holds what its old resource answered for: that resource itself, or its valid backup or the new resource, created |
| StackUpdates.StackUpdate.CanStartAgain | heat/engine/update.py:33-43 | at any yield the two stacks may be updated again, with the same guarantees |
| StackUpdates.StackUpdate.Run | heat/engine/update.py:51-69 | any number of segments in any order the edges allow keep the invariant; if it finishes, all is done as answered; it raises only if some operation did not succeed, and if all succeed at once it finishes within one segment for each task |
| StackUpdates.StackUpdate.Close | heat/engine/scheduler.py:345-346 | abandoning the update at any yield keeps the invariant, and fails exactly the deletions and creations that are under way |
| StackUpdates.CloseSettles | heat/engine/resource.py:441-448 | none of those is left in progress, and nothing else changes |
| StackUpdates.RunUpdate | heat/engine/update.py:51-69 | from a sound start: sound and owned afterwards, nothing live lost, and clean if it finished, which it does if every operation succeeds |
| StackUpdates.UpdateThenRollBack | heat/engine/update.py:45-69 | nothing live is lost through an update, abandoned anywhere, and the rollback after it |
| StackUpdates.RollBackSwapsIn | heat/engine/update.py:102-109 | a rollback that has to replace a resource swaps in a valid backup of it, as it is |
| StackUpdates.BrokenComesBack | heat/engine/update.py:92-122 | a resource whose creation failed, replaced in an update that is abandoned, is swapped back in by the rollback as (UPDATE, COMPLETE) |
| StackUpdates.CloseKeeps | heat/engine/update.py:51-69 | closing the generators of a name loses nothing |
| StackUpdates.CreateKeeps | heat/engine/update.py:121-122 | creating the new resource loses nothing |
| StackUpdates.BackUpKeeps | heat/engine/update.py:114-121 | backing up loses nothing |
| StackUpdates.SwapKeeps | heat/engine/update.py:102-109 | swapping loses nothing |
| StackUpdates.DestroyOldKeeps | heat/engine/update.py:167-171 | an old resource is dropped only once it is no longer live |
| StackUpdates.CleanBackupKeeps | heat/engine/update.py:158-159 | a backup is cleaned up only after its replacement is in place |
| Restarts.StackRestart.DestroyAll | heat/engine/parser.py:695-700 | every resource is destroyed in the order given, whatever fails: what was created is (DELETE, FAILED) if destroying it fails, and else no longer live; reports failure exactly when there is one of the first kind |
| Restarts.StackRestart.CreateAll | heat/engine/parser.py:702-712 | created up to the first whose creation fails, then marked as failed |
| Restarts.StackRestart.RestartResource | heat/engine/parser.py:687-712 | destroys every dependent before the resource and tries the resource before any of them, unless some destroy failed, and then creates nothing; touches nothing else |
| ScalingTemplates.ResourceTemplates | heat/scaling/template.py:17-38 | the loop yields the entries that the positions determine, for any sizes, negative ones included |
| ScalingTemplates.TemplateNames | heat/scaling/template.py:25-38 | exactly num entries on distinct names: the newest instances in their order, then new ones |
| ScalingTemplates.TemplateChanges | heat/scaling/template.py:29-38 | whatever is changed or added is on the definition given |
| ScalingTemplates.TemplateWithoutReplacement | heat/scaling/template.py:17-38 | with nothing to replace, the newest instances are kept as they are |
| ScalingTemplates.TemplateOutdated | heat/scaling/template.py:27-38 | how many instances a template leaves outdated |
| ScalingTemplates.UnaffectedCount | heat/engine/resources/autoscaling.py:300-308 | how many instances a template leaves alone |
| ScalingTemplates.OutdatedInAnyOrder | heat/engine/resources/autoscaling.py:182-191 | listing the instances in another order changes no count |
| RollingUpdates.DroppingOldest | heat/scaling/template.py:25 | dropping the oldest drops outdated instances first, if those are the oldest |
| RollingUpdates.ResortedKeepsOutdatedFirst | heat/engine/resources/autoscaling.py:182-191 | outdated instances stay first if changed ones are listed as newest |
| RollingUpdates.PassBounds | heat/engine/resources/autoscaling.py:333-342 | a pass changes at most one batch, and leaves that many fewer outdated |
| RollingUpdates.TemplateBanded | heat/scaling/template.py:25-38 | instances that keep their places: the outdated ones stay a band, and which band it is |
| RollingUpdates.PassKeepsProgress | heat/engine/resources/autoscaling.py:329-342 | what every pass keeps, however instances are listed |
| RollingUpdates.PassKeepsService | heat/engine/resources/autoscaling.py:327-342 | enough instances are left in service by every pass, the shrinking one included |
| RollingUpdates.BandPass | heat/engine/resources/autoscaling.py:327-342 | with instances that keep their places, a pass leaves too few in service if and only if it is the shrinking one and the condition fails |
| RollingUpdates.ProgressEnds | heat/engine/resources/autoscaling.py:331-346 | at the end nothing is outdated, the size is the old one, and the number of passes is exact |
| RollingUpdates.ProgressGoesOn | heat/engine/resources/autoscaling.py:331-346 | until then the loop goes on |
| RollingUpdates.NegativeBatchNeverEnds | heat/engine/resources/autoscaling.py:331-342 | with a negative batch size the loop goes on after any number of passes, whatever they leave outdated |
| RollingUpdates.InPlaceUpdateBreaksService | heat/engine/resources/autoscaling.py:327-342 | three instances, batches of two, two to be kept in service: one is |
| RollingUpdates.InstanceGroup.CreateTemplate | heat/engine/resources/autoscaling.py:283-294 | the template for a size, with fresh distinct names for new instances |
| RollingUpdates.InstanceGroup.ReplaceBatch | heat/engine/resources/autoscaling.py:336-341 | one pass, and what it left outdated and in service |
| RollingUpdates.InstanceGroup.ReplaceAll | heat/engine/resources/autoscaling.py:327-346 | the loop ends after an exact number of passes with the old number of instances, all on the new definition |
| RollingUpdates.InstanceGroup.Replace | heat/engine/resources/autoscaling.py:296-348 | when it refuses, and why, and that it fails exactly if one of its updates does; else at most one pass more than batches, at most one batch changed in each, MinInstancesInService kept if changed instances are listed as newest, exactly when it is kept if they keep their places, and a total pause below the timeout |
| RollingUpdates.InstanceGroup.Resize | heat/engine/resources/autoscaling.py:350-365 | the group has the new size: its newest instances unchanged, and new ones |
| Adjustments.PercentageCounts | heat/engine/resources/autoscaling.py:595-604 | a percentage is rounded to less than one instance, and never to nothing |
| Adjustments.AutoScalingGroup.Adjust | heat/engine/resources/autoscaling.py:579-660 | resized to the allowed size nearest to the request, in the cases in which it is resized at all; every resize lands between MinSize and MaxSize; a request within the bounds goes all the way, in its direction |
| Adjustments.AdjustmentFollows | heat/engine/resources/autoscaling.py:590-626 | a change adds the adjustment, an exact capacity becomes the size, a percentage comes within less than one instance; a group of an allowed size otherwise goes to the bound in the way, and never in the wrong direction |
| Adjustments.AutoScalingGroup.WithinBounds | heat/engine/resources/autoscaling.py:606-626 | a group of an allowed size always moves to the allowed size nearest to the request |
| Adjustments.AutoScalingGroup.AdjustAll | heat/engine/resources/autoscaling.py:579-660 | any sequence of adjustments stays between MinSize and MaxSize |
| Adjustments.AutoScalingGroup.UpdateSizes | heat/engine/resources/autoscaling.py:560-577 | without a cooldown the group gets the desired capacity, or else the allowed size nearest to its own; changed bounds are met afterwards if and only if no cooldown was in progress or they were met before |
| StackLocks.LockTable.Create | heat/db/sqlalchemy/api.py:412-418 | adds a row unless there is one, and tells whose it is |
| StackLocks.LockTable.Steal | heat/db/sqlalchemy/api.py:421-429 | replaces the owner only if it is the expected one, and tells the three outcomes apart |
| StackLocks.LockTable.Release | heat/db/sqlalchemy/api.py:432-439 | deletes the engine's own row only |
| StackLocks.NextKeepsInv | heat/engine/stack_lock.py:59-122 | every step of every request, and every crash, keeps the invariant |
| StackLocks.MutualExclusion | heat/engine/stack_lock.py:59-122 | in every interleaving no two live requests hold one stack's lock, a holder's row names its engine, and a live owner is a holder |
| StackLocks.OnlyHoldersWrite | heat/engine/stack_lock.py:59-122 | rows change only when a request comes to hold the lock or gives it up |
| StackLocks.RefusedNeverHeld | heat/engine/stack_lock.py:74-110 | a request that is refused did not hold the lock at any point of the run |
| StackLocks.AtMostTwoRounds | heat/engine/stack_lock.py:86-101 | a request begins at most two rounds, and makes at most seven steps |
| StackLocks.NeverBlocked | heat/engine/stack_lock.py:59-122 | a live request can always make its next step |
| StackLocks.AloneAcquires | heat/engine/stack_lock.py:59-110 | left alone, it gets the lock if and only if there is no row or its owner is another, dead engine |
| StackLocks.ReleasedIsTaken | heat/engine/stack_lock.py:95-101 | a lock released while it was being stolen is asked for again, and taken if it is still free |
| StackLocks.StackLock.TryAcquire | heat/engine/stack_lock.py:51-56 | takes a free lock, and never steals |
| StackLocks.StackLock.Acquire | heat/engine/stack_lock.py:59-110 | with anything happening between its transactions: on success it holds the lock, if it raises it does not, after one or two rounds; against a live owner it raises in the first round, and against a dead one only if another request has changed the row meanwhile, or with a retry left taken the lock |
| StackLocks.StackLock.Release | heat/engine/stack_lock.py:112-122 | the holder's row is there, and goes |
| Joins.ReduceItems | heat/engine/template.py:212-224 | the loop joins each maximal run of strings, and raises for a delimiter that is no string if there is one to join |
| Joins.HandleReduce | heat/engine/template.py:198-224 | succeeds exactly for good arguments, with a join without neighbouring strings that no item by item resolution can tell from the original; otherwise raises the error for what is wrong with them |
| Joins.ReducedIsFixed | heat/engine/template.py:190-197 | a list is left alone if and only if no two strings are next to each other; reducing twice is reducing once |
| Joins.ReducedJoins | heat/engine/template.py:212-224 | whatever the other items resolve to, and whether they do, the reduced list joins to the same string |
| Joins.ReducePreservesMeaning | heat/engine/template.py:190-227 | for any snippet and any item by item resolution that fixes strings, resolving joins after reducing them is resolving them directly, errors included |
| Joins.DeepReducePreservesMeaning | heat/engine/template.py:297-327 | the same for joins nested in the arguments of joins |
| Joins.ReduceRaises | heat/engine/template.py:198-224 | reducing raises if and only if some join that it meets cannot be reduced |
| Joins.EarlyReductionMayRaise | heat/engine/template.py:212-224 | a join that could be resolved later, for which reducing raises |
| Joins.OnlyJoinsResolve | heat/engine/template.py:496-519 | a join becomes what its handler makes of it, and a snippet without joins stays as it is |
| Joins.JoinOfValues | heat/engine/template.py:318-324 | strings are joined as they are and None as the empty string; anything else is a TypeError |
| Joins.JoinRaises | heat/engine/template.py:303-324 | when joining raises, and which of the three errors |
| Joins.JoinAppend | heat/engine/template.py:318-324 | joining two lists is joining their joins |
| Identifiers.UnquoteQuote | heat/common/identifier.py:113-122 | percent-encoding is undone, with or without slashes as safe characters |
| Identifiers.QuoteSeparates | heat/common/identifier.py:113-122 | an encoded field holds none of the characters that separate fields |
| Identifiers.QuoteLeavesAlone | heat/common/identifier.py:92-98 | letters, digits and three more characters stay as they are, and nothing else does |
| Identifiers.SplitArn | heat/common/identifier.py:92-98 | the fields between the colons of an ARN |
| Identifiers.MatchTenantPath | heat/common/identifier.py:29 | what the expression for the path matches in an encoded path |
| Identifiers.ArnRoundTrip | heat/common/identifier.py:50-98 | an identifier is given back by its ARN if and only if neither stack name nor stack id is empty, and else parsing raises |
| Identifiers.PrintedArnNamesTheSame | heat/common/identifier.py:50-98 | whatever is accepted as an ARN, printing what it names and parsing that names the same |
| Identifiers.AcceptedArns | heat/common/identifier.py:50-69 | exactly which strings are accepted: scheme in any case, any region, the two service fields, and a stack name and id, the name without a hidden slash; else a ValueError |
| Identifiers.HeatArnParses | heat/common/identifier.py:50-69 | and what each of them names |
| Identifiers.SlashesAreRefused | heat/common/identifier.py:159-172 | slashes in a stack or resource name are refused, those in an event id are not |
| Identifiers.ChildParts | heat/common/identifier.py:124-126 | the last component is the leaf if and only if it has no slash, and the parent's path comes back in normal form |
| Identifiers.NormalIs | heat/common/identifier.py:190-195 | which paths come back unchanged |
| Identifiers.ResourceParts | heat/common/identifier.py:159-195 | a resource's identifier gives back the resource name and the owning stack |
| Identifiers.EventParts | heat/common/identifier.py:198-234 | an event's identifier gives back the event id if and only if it has no slash |
| Identifiers.EventOfResource | heat/common/identifier.py:216-240 | the event of a resource gives back resource name and stack, the name if and only if it is not empty |
| ShortIds.BytesAreValue | heat/common/short_id.py:24-31 | the bytes stand for the value, with padding bits after its least significant one |
| ShortIds.LowIsMask | heat/common/short_id.py:30 | the masks of the source are remainders |
| ShortIds.IdLetters | heat/common/short_id.py:46-51 | each of the 12 characters is the letter of one of the successive 5-bit groups |
| ShortIds.IdDecodes | heat/common/short_id.py:44-51 | the value can be read off the id again |
| ShortIds.IdOfFields | heat/common/short_id.py:34-51 | which bits of which field of the UUID each of the 12 characters holds; which UUIDs are refused, and with which error |
| ShortIds.IdsAreDistinct | heat/common/short_id.py:34-51 | two version 4 UUIDs have the same id if and only if their time fields agree |

## Left out

- Scheduler.DependencyTaskGroup.Run: in the mode that aggregates exceptions plain callables are covered unless some transitive
  requirement of theirs raises, because a cancelled one can still be called; an ordinary exception thrown into the group at its yield, timeouts of the
  runners, and generators that raise when they are closed are not modelled.
- Scheduler.TaskRunner.Cancel: closing a generator is taken to succeed.
- Dependency.Graph.DelItem: nodes are values in the model; that two graphs could share a node object is not modelled.
- StackUpdates.StackUpdate.Run: tasks are interleaved freely within the stages that the edges between old and new resources
  impose, which covers every order of the combined graph and more; the transaction that exchanges the rows of two resources in the
  database, and loading the backup stack from the database, are not modelled.
- StackUpdates.StackUpdate.AdvanceNew: an update in place finishes, fails, or finds that the resource must be replaced. That it may
  leave (UPDATE, IN_PROGRESS) behind when it asks for replacement or is abandoned is kept, so no claim about the status of updated
  resources is made.
- StackLocks.StackLock.Acquire: an engine that is alive answers in time, and nobody answers for one that is not.
- Resources.ActionGenerator.Drive: a failure to store a state is not modelled.
- Restarts.StackRestart.RestartResource: the generators of destroy and create are run to their ends in one step each.
- RollingUpdates.InstanceGroup.Replace: groups with FAILED instances, reloading load balancers, and the seconds of a pause (only
  the number of pauses is counted) are not modelled; an update that fails ends the replacement and nothing is said of the group.
- RollingUpdates.InstanceGroup.CreateTemplate: a generated id is taken to differ from every name in use.
- Adjustments.AutoScalingGroup.Adjust: percentages are exact instead of floating-point; notifications are not modelled.
- Adjustments.AutoScalingGroup.UpdateSizes: the replacement of instances that precedes it is the one of RollingUpdates.
- StackLocks.StackLock.Release: the extra release that deleting a stack performs while a thread of the same engine still holds the
  lock, and the release when a thread cannot be started, are not modelled.
- Joins.ReducePreservesMeaning: the other intrinsic functions appear only as the transformation of arguments; the whole pipeline
  need not terminate when a parameter holds intrinsic functions.
- Identifiers.ArnRoundTrip: fields are byte strings, and encoding a path as UTF-8 leaves a byte string as it is; parsing an ARN out
  of a URL is not modelled.
- ShortIds.IdsAreDistinct: parsing a UUID from text is not modelled.
- RPC, identity and compute clients, database sessions, threads, logging, watch rules, schema and constraint checks, the environment
  registry and the API layers: mostly input and output, and library calls.
