# AI-Native Linux: verified models of the lifecycle and analysis cores

This project models ten cores of the AI-Native Linux repository in Dafny and proves properties of
them over all inputs, all runs and, where operations give up a lock between their steps, all
interleavings. `dafny verify dfyconfig.toml` checks everything.

| file | what it models |
|---|---|
| `CycleFinder.dfy`, `DepthFirst.dfy`, `Graphs.dfy` | the depth-first cycle finder of the Consumes-graph analysis; depth-first search as a log of events, which determines it; graphs, walks and reachability |
| `ContainerSessions.dfy`, `ContainerProtocol.dfy` | the container session driver: one method for each section that holds the lock, and the protocol in which such sections interleave |
| `UpdateDriver.dfy`, `UpdateProtocol.dfy` | the eleven-state update driver, and the protocol in which its loads, stores and emissions interleave |
| `ActionEnvelope.dfy` | the action envelope: phases, time stamps, conditions |
| `RecipeRegistry.dfy` | the community recipe registry |
| `PackageStore.dfy`, `PackageProtocol.dfy` | the package store and its name index, and the protocol in which the writes of the two tables interleave |
| `SessionDriver.dfy` | the in-memory session driver |
| `FleetHealing.dfy` | the fleet healing coordinator |
| `VersionChain.dfy` | the version chain |
| `LuksPcrs.dfy` | the LUKS token register parser |
| `Timing.dfy`, `Wrappers.dfy` | clock arithmetic; optional values, results, emissions, facts about sets and sequences |

An object whose methods update its fields is a class with those fields; each of its methods is tied
by its contract to a function on values, and the properties over runs are proved about these
functions. The contracts also write out, without these functions, what each operation answers and
leaves behind. A run is an arbitrary sequence of operations. Clock readings, minted ids, subprocess
results, evidence emissions, cryptographic primitives and the verification result of an update are
inputs, so every outcome of them is covered.

## Where the code and its documentation differ

The code is followed; the exact condition under which the documented property holds is proved.

- "Reclaimed" is drawn as terminal and the session quota as a maximum. Opening, pausing and resuming
  give up the lock between checking and writing, and the late write does not look again. Reclaimed is
  terminal exactly when operations on one session do not overlap, however many are in flight
  elsewhere; the quota is kept exactly when no operations overlap at all (both also hold, trivially,
  for a quota of zero). With `n >= 1` operations in flight
  and a quota of at least one, the live counts that can be reached are exactly those up to
  `max + n - 1`, as long as `max + n <= 2^32`. Beyond that the check, which casts the live count to
  32 bits, wraps around and every count can be reached (`LiveCountsExactly`, `LiveBoundExactly`).
- An update operation loads its plan, works on the copy, and stores it twice without looking again.
  Legal histories of rising rank and at most eight changes, events in order and none twice, and
  rolled-back states that are never left: each holds in all runs exactly when operations on one plan
  do not overlap, however many are in flight on other plans. In every interleaving a state still has a legal source
  stored before it, Active still needs the whole path through Executed and Verified, and a plan with
  nothing in flight is at rest (`PlanUnderOverlap`).
- `verify_update` always finds the hashes equal (`crates/aios-apps/src/update_driver.rs:445-449`), so the
  code as written never takes its failure branch. Here the verification result is an input, and what
  is said about the Failed state and the failure class is about that branch.
- "Publish a recipe that has been approved": reviews outlive a new submission, so an approval of an
  earlier submission is enough. `ApprovedAnewExactly` says when a publication promises a new one.
- A revocation is called permanent and flagging is said to be refused in terminal states. Flagging or
  submitting again lifts a revocation; `RevokedExactly` says when one is in force.
- The action phase documentation counts six transitions; the code and this model have five edges
  (`crates/aios-action/src/phase.rs:41-67`).
- A failed evidence emission makes `register_package` report an error for a package that is stored and
  not indexed; `IndexedExactly` says which stored packages are listed. Registrations under one name
  that overlap may be listed in another order than they were stored (`InOrderExactlyWithoutOverlap`).
- `rollback_to` speaks of the active entry. `append` may add a second one; `RollbackLeavesOneActive` says
  when a rollback leaves exactly one, `OneActiveThroughoutExactly` when a whole run never has two.

## Model

| member | source | states |
|---|---|---|
| CycleFinder.FindCycles | tools/capella/analyze.py:169-204 | The reported list is empty iff the graph has no closed walk, iff the finishing order is reverse topological; every reported list is a simple cycle; every node ends black, every adjacency entry is examined exactly once, and there is exactly one cycle per entry whose target did not finish before its node, closed by that entry; every closed walk goes through the closing edge of some reported cycle. The nodes finish in turns, one for each key in order: after a turn exactly the nodes reachable from the keys so far are finished, the key last. Entries of a node are examined by rising index, and when the next one is, the targets of the earlier ones are finished but for the back entries. The search is the one depth-first search of the graph and its keys. Terminates on every graph. |
| CycleFinder.Explore | tools/capella/analyze.py:179-203 | Searching from a white node keeps the search invariant, ends with an empty stack, and finishes the start node after everything already finished. |
| CycleFinder.Examine | tools/capella/analyze.py:182-200 | Examining one entry keeps gray equal to the stack and the parent chain equal to the stack, and lowers the termination measure. |
| CycleFinder.ReportCycle | tools/capella/analyze.py:191-200 | An entry to a gray node adds exactly one simple cycle, closed by that entry. |
| CycleFinder.CycleFromParents | tools/capella/analyze.py:192-199 | The parent walk meets the gray neighbour before a root, self-loops included, and the reversed list is the stack from it up, closed by it. |
| CycleFinder.StepToWhite | tools/capella/analyze.py:186-190 | Pushing a white neighbour keeps the invariant. |
| CycleFinder.StepToGray | tools/capella/analyze.py:186-200 | Reporting a cycle keeps the invariant. |
| CycleFinder.StepToBlack | tools/capella/analyze.py:185-191 | Passing an entry to a black node keeps the invariant. |
| CycleFinder.StepPop | tools/capella/analyze.py:201-203 | Finishing a node keeps the invariant: its back entries are those whose target has not finished. |
| CycleFinder.BackCycle | tools/capella/analyze.py:192-200 | The stack from the gray neighbour up is a simple cycle. |
| CycleFinder.CyclesDecide | tools/capella/analyze.py:169-204 | For a complete search, no reported cycle means acyclic, and the other way round. |
| CycleFinder.WalkIsCut | tools/capella/analyze.py:188-200 | Every closed walk goes through the closing edge of some reported cycle. |
| CycleFinder.RestIsAcyclic | tools/capella/analyze.py:188-200 | Without the closing edges of the reported cycles the graph is acyclic. |
| Graphs.ReverseTopologicalIsAcyclic | tools/capella/analyze.py:169-204 | A reverse topological order rules out every closed walk. |
| CycleFinder.SearchIsDetermined | tools/capella/analyze.py:169-204 | Finishing order, examined entries, back entries and cycles are determined by the graph and the order of its keys. |
| DepthFirst.OneSearch | tools/capella/analyze.py:176-203 | A graph and an order of its keys have exactly one log in which searches start at the first key not finished and every step belongs to the open node discovered last. |
| DepthFirst.DepthFirstLooksRise | tools/capella/analyze.py:181-184 | In such a log the entries of each node are looked at by rising index, none twice. |
| CycleFinder.LogGrows | tools/capella/analyze.py:179-203 | Every step of the program that such a log allows keeps the stack, the finishing order, the examined entries, the back entries and the cycles equal to what the log says. |
| CycleFinder.TurnsGrow | tools/capella/analyze.py:176-180 | After the turn of one more key exactly the nodes reachable from the keys so far are finished. |
| CycleFinder.BuildGraph | tools/capella/analyze.py:165-167 | The graph's neighbours are the producers of each consumer in edge order, its edges are the given ones, and its keys are the consumers in the order of their first edges. |
| CycleFinder.GroupIsDetermined | tools/capella/analyze.py:165-167 | The edges, in their order, determine the graph and the order of its keys. |
| CycleFinder.ReportIsDetermined | tools/capella/analyze.py:164-206 | The edges, in their order, determine the report. |
| CycleFinder.ConsumesCycles | tools/capella/analyze.py:164-206 | On the edge list itself: no cycle is reported iff there is no closed chain of edges, every report is one in which no node but the first repeats, and every closed chain contains the closing edge of some report. The report is that of the depth-first search of the grouped edges. |
| Timing.TimedOutWindow | crates/aios-apps/src/session_container_driver.rs:271-277 | The exact window in which a session is timed out, with truncation to whole seconds and backward clocks resolved. |
| ContainerSessions.SessionContainerDriver.constructor | crates/aios-apps/src/session_container_driver.rs:304-310 | A new driver has no sessions. |
| ContainerSessions.SessionContainerDriver.OpenSession | crates/aios-apps/src/session_container_driver.rs:506-599 | Without interference: the error order, the resulting table, and that a failed launch leaves a starting session behind. |
| ContainerSessions.SessionContainerDriver.CheckQuota | crates/aios-apps/src/session_container_driver.rs:517-531 | Passes iff the live count, cast to 32 bits, is below the quota. |
| ContainerSessions.SessionContainerDriver.InsertIdle | crates/aios-apps/src/session_container_driver.rs:540-558 | The idle handle is in the table, nothing else changed. |
| ContainerSessions.SessionContainerDriver.MarkLaunched | crates/aios-apps/src/session_container_driver.rs:578-585 | An unconditional write of Active and the container id. |
| ContainerSessions.SessionContainerDriver.MarkState | crates/aios-apps/src/session_container_driver.rs:560-566 | An unconditional write of a state, as pausing and resuming do at lines 768-771 and 802-805 too. |
| ContainerSessions.SessionContainerDriver.CloseSession | crates/aios-apps/src/session_container_driver.rs:601-648 | A receipt with the whole seconds lived and the heartbeat count iff the session was live, which it then no longer is. |
| ContainerSessions.SessionContainerDriver.GetSession | crates/aios-apps/src/session_container_driver.rs:650-694 | The table after the timeout and the container probe, with the state for every printed one written out; a descriptor, field by field, iff the session is live afterwards. |
| ContainerSessions.SessionContainerDriver.Heartbeat | crates/aios-apps/src/session_container_driver.rs:716-734 | Accepted iff live and not timed out; then the stamp is the new last heartbeat and the count goes up by one. A timed-out session is reclaimed, and nothing else changes. |
| ContainerSessions.SessionContainerDriver.CheckState | crates/aios-apps/src/session_container_driver.rs:752-764 | Passes iff the session has the expected state. |
| ContainerSessions.SessionContainerDriver.Switch | crates/aios-apps/src/session_container_driver.rs:751-808 | Pausing and resuming without interference, and which error a refusal gives. |
| ContainerProtocol.ExposureStep | crates/aios-apps/src/session_container_driver.rs:517-585 | In any table, live sessions, targets of writes in flight and admitted opens together grow only by a quota check that the cast count passes, and then to at most the live sessions plus the operations in flight. |
| ContainerProtocol.LiveBound | crates/aios-apps/src/session_container_driver.rs:517-585 | In every interleaving with at most n in flight, colliding ids included, at most max + n - 1 sessions are live, if the quota is zero or max + n <= 2^32. |
| ContainerProtocol.LiveBoundExactly | crates/aios-apps/src/session_container_driver.rs:517-585 | That bound holds in all runs, under any limit per session, iff the quota is zero or max + n <= 2^32. |
| ContainerProtocol.LiveCountsExactly | crates/aios-apps/src/session_container_driver.rs:517-585 | Exactly which live counts runs can lead to: zero; for a quota of at least one, all up to max + n - 1, or all numbers when max + n > 2^32; a limit on operations per session makes no difference. |
| ContainerProtocol.WrapAroundBreaksBound | crates/aios-apps/src/session_container_driver.rs:517-531 | When max + n > 2^32 and the quota is not zero, the 32-bit count wraps around and any number of sessions can become live. |
| ContainerProtocol.LiveBoundIsReached | crates/aios-apps/src/session_container_driver.rs:517-558 | For every quota of at least one and every n, some run reaches max + n - 1. |
| ContainerProtocol.QuotaExactlyWithoutOverlap | crates/aios-apps/src/session_container_driver.rs:517-585 | The quota is kept in all runs with n in flight, under any limit per session, iff n <= 1 or the quota is zero. |
| ContainerProtocol.ReceiptBound | crates/aios-apps/src/session_container_driver.rs:601-620 | In every interleaving, receipts for a session number at most one plus the writes that landed on it after a reclaim. |
| ContainerProtocol.ReceiptBoundIsReached | crates/aios-apps/src/session_container_driver.rs:601-620 | Two operations in flight suffice for any number of receipts, with equality in the bound. |
| ContainerProtocol.OneReceiptWithoutOverlap | crates/aios-apps/src/session_container_driver.rs:601-620 | With at most one operation in flight on each session (or in all): at most one receipt per session and no late write. |
| ContainerProtocol.LatePause | crates/aios-apps/src/session_container_driver.rs:751-774 | A pause checked before a close and written after it makes a reclaimed session paused. |
| ContainerProtocol.ReclaimedExactlyTerminalWithoutOverlap | crates/aios-apps/src/session_container_driver.rs:14-20 | Reclaimed is terminal in all runs with n in flight and m on one session iff n <= 1, m <= 1 or the quota is zero. |
| ContainerProtocol.HandleTellsLife | crates/aios-apps/src/session_container_driver.rs:540-558 | In every interleaving a session's handle has the request and the time of its last insertion, counts the heartbeats accepted since, and carries the stamp of the last one. |
| ContainerProtocol.BeatDecides | crates/aios-apps/src/session_container_driver.rs:716-734 | In every interleaving a heartbeat for a live session is accepted, and then the session is heard of at its stamp, exactly within the timeout of the last time it was heard of; otherwise the session is reclaimed. |
| ContainerProtocol.GetDecides | crates/aios-apps/src/session_container_driver.rs:650-694 | In every interleaving a lookup leaves a live session live exactly when it comes within that timeout and the container probe, if there is one, shows a running, paused, created or initializing container. |
| ContainerProtocol.OpenAlone | crates/aios-apps/src/session_container_driver.rs:506-599 | The sections of an open, uninterrupted, do what the operation does as a whole. |
| ContainerProtocol.PauseAlone | crates/aios-apps/src/session_container_driver.rs:751-774 | So do those of pausing. |
| ContainerProtocol.ResumeAlone | crates/aios-apps/src/session_container_driver.rs:785-808 | So do those of resuming. |
| ContainerProtocol.CloseAlone | crates/aios-apps/src/session_container_driver.rs:601-648 | Closing reclaims a session in any live state, with one receipt, and nothing else. |
| UpdateDriver.InMemoryUpdateDriver.PlanUpdate | crates/aios-apps/src/update_driver.rs:395-412 | The plan with the package, versions and time asked for, stored unless it is a dry run; every stored plan carries its request. |
| UpdateDriver.InMemoryUpdateDriver.TwoSteps | crates/aios-apps/src/update_driver.rs:376-387 | Two validated transitions, each stored, then the event; a rejected emission is reported after the plan moved. |
| UpdateDriver.InMemoryUpdateDriver.ExecuteUpdate | crates/aios-apps/src/update_driver.rs:414-435 | Succeeds iff the plan is Planned and the emission is not rejected; which error a refusal gives; the states stored, the time and the event. |
| UpdateDriver.InMemoryUpdateDriver.VerifyUpdate | crates/aios-apps/src/update_driver.rs:437-472 | Succeeds iff the plan is Executed and the emission is not rejected; both outcomes with the states stored, the time, the event, and the failure class recorded on a mismatch. |
| UpdateDriver.InMemoryUpdateDriver.ActivateUpdate | crates/aios-apps/src/update_driver.rs:474-492 | Succeeds iff the plan is Verified and the emission is not rejected; which error a refusal gives; the states stored, the time and the event. |
| UpdateDriver.InMemoryUpdateDriver.RollbackUpdate | crates/aios-apps/src/update_driver.rs:494-527 | Succeeds iff the plan is Executed, Verified, Failed or Active and the emission is not rejected; reports the source version of the request that the plan was made for, or which error. |
| UpdateDriver.TransitionExactly | crates/aios-apps/src/update_driver.rs:358-387 | A transition succeeds exactly along one of the sixteen edges, and changes the state and its time only. |
| UpdateDriver.PlanCarriesRequest | crates/aios-apps/src/update_driver.rs:395-412 | After any run a kept plan has the package, the versions and the creation time it was made with, so a rollback reverts to the version its request named. |
| UpdateDriver.HistoryRises | crates/aios-apps/src/update_driver.rs:358-374 | Every legal history has strictly rising rank. |
| UpdateDriver.HistoryWithActive | crates/aios-apps/src/update_driver.rs:358-374 | Active is reached by one path only, through Executed and Verified. |
| UpdateDriver.PlanAfterRun | crates/aios-apps/src/update_driver.rs:395-527 | After any run of operations done one after the other: stored states follow legal edges of rising rank, at most eight changes, end at rest; the failure class is set iff verification failed; events come in phase order, none twice. |
| UpdateDriver.RolledBackIsFinal | crates/aios-apps/src/update_driver.rs:371-373 | In a run of operations done one after the other a rolled-back plan is never changed again. |
| UpdateDriver.DryRunsAreNotStored | crates/aios-apps/src/update_driver.rs:407-409 | A plan can be loaded after a run iff it was not a dry run. |
| UpdateProtocol.PlanUnderOverlap | crates/aios-apps/src/update_driver.rs:337-350 | In every interleaving: a plan starts Planned, each later stored state has a legal source stored before it, Active comes only after the whole path through Executed and Verified, a failure class was earned and a Failed plan has one, every event reports a stored state, and a plan with nothing in flight is at rest. |
| UpdateProtocol.PlanCarriesRequestUnderOverlap | crates/aios-apps/src/update_driver.rs:395-412 | The same in every interleaving, from the plan's creation on. |
| UpdateProtocol.LoadableExactly | crates/aios-apps/src/update_driver.rs:395-412 | In every interleaving the plans that can be loaded are those not made as a dry run. |
| UpdateProtocol.OneAtATimeIsSequential | crates/aios-apps/src/update_driver.rs:395-527 | With one operation in flight on each plan and any number in all, the tables found when nothing is in flight are exactly those of sequential runs. |
| UpdateProtocol.ReachableIsTidy | crates/aios-apps/src/update_driver.rs:395-527 | With at most one operation in flight on each plan (or in all), at every moment a plan's history is legal and ends in its state, its failure class is set iff it failed, and its events are in order. |
| UpdateProtocol.LegalExactlyWithoutOverlap | crates/aios-apps/src/update_driver.rs:358-387 | Stored states follow legal edges in all runs with n in flight and m on one plan iff n <= 1 or m <= 1. |
| UpdateProtocol.RisingExactlyWithoutOverlap | crates/aios-apps/src/update_driver.rs:358-374 | The rank of stored states rises in all runs with n in flight and m on one plan iff n <= 1 or m <= 1. |
| UpdateProtocol.ShortExactlyWithoutOverlap | crates/aios-apps/src/update_driver.rs:358-374 | At most eight changes are stored in all runs with n in flight and m on one plan iff n <= 1 or m <= 1. |
| UpdateProtocol.EventsOrderedExactlyWithoutOverlap | crates/aios-apps/src/update_driver.rs:425-429 | Events come in phase order, none twice, in all runs with n in flight and m on one plan iff n <= 1 or m <= 1. |
| UpdateProtocol.FailureKeptExactlyWithoutOverlap | crates/aios-apps/src/update_driver.rs:450-458 | With the verification result as an input, a plan that failed verification keeps its failure class in all runs with n in flight and m on one plan iff n <= 1 or m <= 1. |
| UpdateProtocol.RolledBackExactlyTerminalWithoutOverlap | crates/aios-apps/src/update_driver.rs:371-373 | A rolled-back plan is never changed again in all runs with n in flight and m on one plan iff n <= 1 or m <= 1. |
| UpdateProtocol.Race | crates/aios-apps/src/update_driver.rs:414-423 | Two operations that load a plan before either stores run to their ends, the second over what the first left. |
| UpdateProtocol.DoubleExecution | crates/aios-apps/src/update_driver.rs:414-429 | Two executions of one plan store Executing over Executed and report the event twice. |
| UpdateProtocol.ForgottenFailure | crates/aios-apps/src/update_driver.rs:437-458 | A verification loaded before another one failed overwrites the failure class. |
| UpdateProtocol.LateActivation | crates/aios-apps/src/update_driver.rs:474-483 | An activation loaded before a rollback makes the rolled-back plan Active. |
| ActionEnvelope.Envelope.TransitionTo | crates/aios-action/src/envelope.rs:123-160 | An attempt succeeds iff it goes along one of the five edges; the execution after it field by field, and which error a refused one gives. |
| ActionEnvelope.Envelope.AddCondition | crates/aios-action/src/envelope.rs:176-205 | Appended iff it is no earlier than the last one and does not retract a true condition; nothing else changes; which error a refusal gives. |
| ActionEnvelope.Envelope.ValidatePhaseConditions | crates/aios-action/src/envelope.rs:255-276 | For each phase, written out, which conditions must have been observed true for it to pass; otherwise it names exactly the missing ones in that order. |
| ActionEnvelope.RunItinerary | crates/aios-action/src/phase.rs:41-67 | At most two attempts of any run succeed, along legal edges, and the phase stamp is the latest clock reading of a success. |
| ActionEnvelope.RunPhases | crates/aios-action/src/phase.rs:41-67 | The phases a run enters for each phase it ends in: Succeeded and RolledBack only after Running, Failed with or without it. |
| ActionEnvelope.PhaseStampRises | crates/aios-action/src/envelope.rs:134-142 | The phase stamp never falls, even when the clock does. |
| ActionEnvelope.RunStamps | crates/aios-action/src/envelope.rs:144-159 | After any run, ended_at is set iff terminal and equals the phase stamp, started_at is set iff Running was entered, and is no later. |
| ActionEnvelope.StampsAreSetOnce | crates/aios-action/src/envelope.rs:144-155 | A stamp that is set never changes. |
| ActionEnvelope.ConditionsAfterRun | crates/aios-action/src/envelope.rs:176-205 | The list is in time order, and a type has a true entry iff its latest entry is true. |
| ActionEnvelope.ConditionsAreAppendOnly | crates/aios-action/src/envelope.rs:176-205 | The condition list is append-only over any run, from any list. |
| ActionEnvelope.RunConditions | crates/aios-action/src/envelope.rs:176-205 | Over any run a list in time order stays in time order, and a kind once true is true in every later entry. |
| ActionEnvelope.TruthOnlyGrows | crates/aios-action/src/envelope.rs:188-201 | From any list, what was observed true stays observed true. |
| ActionEnvelope.ConsistencyLasts | crates/aios-action/src/envelope.rs:224-276 | A passing validation keeps passing while the phase is the same. |
| RecipeRegistry.RecipeRegistry.SubmitRecipe | crates/aios-apps/src/recipe_registry.rs:311-322 | Proposed, unless the name is empty. |
| RecipeRegistry.RecipeRegistry.ReviewRecipe | crates/aios-apps/src/recipe_registry.rs:335-375 | Accepted iff Proposed or UnderReview; stores the review and moves to UnderReview. |
| RecipeRegistry.RecipeRegistry.ApproveRecipe | crates/aios-apps/src/recipe_registry.rs:386-423 | Accepted iff UnderReview; stores an approval. |
| RecipeRegistry.RecipeRegistry.PublishRecipe | crates/aios-apps/src/recipe_registry.rs:435-471 | Accepted iff UnderReview with an approval; sets the publication time. |
| RecipeRegistry.RecipeRegistry.FlagRecipe | crates/aios-apps/src/recipe_registry.rs:481-491 | Flagged from any state, revoked included. |
| RecipeRegistry.RecipeRegistry.DeprecateRecipe | crates/aios-apps/src/recipe_registry.rs:502-519 | Accepted iff Published. |
| RecipeRegistry.RecipeRegistry.RevokeRecipe | crates/aios-apps/src/recipe_registry.rs:529-539 | Revoked from any state. |
| RecipeRegistry.RecipeRegistry.ReviewCount | crates/aios-apps/src/recipe_registry.rs:295-297 | The sum over recipes is the number of stored reviews. |
| RecipeRegistry.RecipeRegistry.BuildTrustBadge | crates/aios-apps/src/recipe_registry.rs:614-648 | For each status of a badge, the states and the number of stored reviews that give it. |
| RecipeRegistry.ReviewCountIsAcceptedReviews | crates/aios-apps/src/recipe_registry.rs:295-423 | Over any run, the review count is the number of accepted review and approve calls. |
| RecipeRegistry.CommunityBadge | crates/aios-apps/src/recipe_registry.rs:614-648 | Verified by the community iff published with three accepted reviews in the run. |
| RecipeRegistry.ReachableIsSound | crates/aios-apps/src/recipe_registry.rs:311-539 | In every reachable registry recipes and states have equal keys, and Published or Deprecated implies a stored approval and a publication time. |
| RecipeRegistry.WithdrawalLasts | crates/aios-apps/src/recipe_registry.rs:481-539 | Without a new submission, a flagged, deprecated or revoked recipe is never proposed, reviewed or published again. |
| RecipeRegistry.RevokedExactly | crates/aios-apps/src/recipe_registry.rs:481-539 | A recipe is revoked after a run from the empty registry iff the run revoked it once submitted and neither flagged nor submitted it afterwards. |
| RecipeRegistry.KnownExactly | crates/aios-apps/src/recipe_registry.rs:311-322 | After any run the registry knows exactly the ids that were submitted under a name. |
| RecipeRegistry.ApprovedAnewExactly | crates/aios-apps/src/recipe_registry.rs:435-471 | After a submission, every way on that publishes the recipe has an approval filed after this submission iff no approval of the id was on file before. |
| RecipeRegistry.StaleApproval | crates/aios-apps/src/recipe_registry.rs:450-458 | An approval of an earlier submission publishes a new one that was only rejected. |
| RecipeRegistry.FlagLiftsRevocation | crates/aios-apps/src/recipe_registry.rs:473-491 | Flagging a revoked recipe lifts the revocation. |
| PackageStore.Objection | crates/aios-apps/src/package_store.rs:157-182 | No objection iff trusted signer, well-formed valid signature and matching hash. |
| PackageStore.InMemoryPackageStore.RegisterPackage | crates/aios-apps/src/package_store.rs:156-206 | Success iff trustworthy and not rejected, with the first check that fails; stored before the emission, indexed after it. |
| PackageStore.InMemoryPackageStore.ListVersionsOf | crates/aios-apps/src/package_store.rs:255-263 | The index entry of the name. |
| PackageStore.VersionsAreTheLog | crates/aios-apps/src/package_store.rs:198-203 | Over any run of registrations done one after the other, the versions listed for a name are the ordered log of its successful registrations. |
| PackageStore.LookupIsLastPassed | crates/aios-apps/src/package_store.rs:188-215 | A lookup gives the last registered package of the id that passed the checks. |
| PackageStore.ReachableIsSound | crates/aios-apps/src/package_store.rs:156-215 | Every stored package passed all checks, and every indexed id resolves. |
| PackageStore.IndexedExactly | crates/aios-apps/src/package_store.rs:190-205 | A stored package is listed iff a registration of that id and name succeeded. |
| PackageStore.AllIndexedWithoutRejections | crates/aios-apps/src/package_store.rs:190-205 | If no emission was rejected, every stored package is listed under its current name after registrations done one after the other. |
| PackageStore.RejectedEmissionHidesPackage | crates/aios-apps/src/package_store.rs:192-196 | A rejected emission leaves a package stored and unlisted. |
| PackageProtocol.TablesAreSequential | crates/aios-apps/src/package_store.rs:188-203 | In every interleaving each table is the one that registrations done one after the other leave, in the order of their writes to that table. |
| PackageProtocol.VersionsAreTheIndexLog | crates/aios-apps/src/package_store.rs:198-203 | In every interleaving the versions listed for a name are the log of index writes under it. |
| PackageProtocol.InterleavedIsSound | crates/aios-apps/src/package_store.rs:156-215 | In every interleaving every stored package passed all checks and every indexed id resolves. |
| PackageProtocol.AllListedOrPending | crates/aios-apps/src/package_store.rs:188-203 | If no emission is rejected, a stored package is at any time listed under its current name or its registration is in flight. |
| PackageProtocol.InOrderExactlyWithoutOverlap | crates/aios-apps/src/package_store.rs:188-203 | Versions are listed in the order in which their packages were stored, in all runs with n in flight and m under one name, iff n <= 1 or m <= 1. |
| PackageProtocol.Overtaking | crates/aios-apps/src/package_store.rs:188-203 | Of two overlapping registrations the package stored first can be listed last. |
| SessionDriver.InMemorySessionDriver.OpenSession | crates/aios-apps/src/session_driver.rs:367-410 | Active from now on, unless no adapter is registered. |
| SessionDriver.InMemorySessionDriver.CloseSession | crates/aios-apps/src/session_driver.rs:412-441 | A receipt iff live and the emission is not rejected; terminated in either case. |
| SessionDriver.InMemorySessionDriver.GetSession | crates/aios-apps/src/session_driver.rs:443-458 | A descriptor that is terminated or inside its heartbeat window. |
| SessionDriver.InMemorySessionDriver.AcceptHeartbeat | crates/aios-apps/src/session_driver.rs:474-494 | Accepted iff live and checked inside the window; stamped with the second clock read. |
| SessionDriver.ExpiresExactly | crates/aios-apps/src/session_driver.rs:242-248 | A session expires exactly when the whole seconds of its timeout have passed since its last heartbeat. |
| SessionDriver.SessionAfterRun | crates/aios-apps/src/session_driver.rs:242-256 | If the session's own stamps do not run back, every heartbeat accepted for it was checked within the timeout of the one before; nothing is asked of other sessions' readings. |
| SessionDriver.CountsAfterRun | crates/aios-apps/src/session_driver.rs:412-494 | Under any clock: the counter is the number of accepted heartbeats, and a session has at most one receipt, whose count is that number. |
| SessionDriver.TerminatedIsFinal | crates/aios-apps/src/session_driver.rs:412-494 | A terminated session is never touched again. |
| FleetHealing.CrossMachineHealing.RegisterHost | crates/aios-autonomous/src/cross_machine_healing.rs:225-230 | Added at the end unless the id is known. |
| FleetHealing.CrossMachineHealing.RemoveHost | crates/aios-autonomous/src/cross_machine_healing.rs:233-235 | Exactly the hosts with other ids remain, in order. |
| FleetHealing.CrossMachineHealing.ObserveRemoteHealth | crates/aios-autonomous/src/cross_machine_healing.rs:252-287 | The registry after an observation, or host not found. |
| FleetHealing.IdsStayUnique | crates/aios-autonomous/src/cross_machine_healing.rs:225-235 | Host ids stay unique over any run. |
| FleetHealing.LookupRun | crates/aios-autonomous/src/cross_machine_healing.rs:238-287 | A component's entry depends on its own observations and restarts only. |
| FleetHealing.FailureCountIsHistory | crates/aios-autonomous/src/cross_machine_healing.rs:102-105 | The failure counter in closed form: trailing bad observations on top of what the last healthy or unknown one left, saturating. |
| FleetHealing.EscalationSticks | crates/aios-autonomous/src/cross_machine_healing.rs:302-311 | A degraded component that escalated escalates whenever degraded until a healthy or unknown observation. |
| FleetHealing.EscalatesAtTheFifth | crates/aios-autonomous/src/cross_machine_healing.rs:274-311 | After a healthy observation and with fewer than three restarts, escalation starts at the fifth bad observation and not before. |
| FleetHealing.DecisionExactly | crates/aios-autonomous/src/cross_machine_healing.rs:293-340 | The decision for every state: none for healthy, unknown to the registry or within LocalOnly; degraded restarts or escalates by its counters; failed fails over iff another reachable host shares the cluster and otherwise is isolated iff it failed three times; unknown escalates iff it failed before. |
| FleetHealing.IsolatesAtTheThird | crates/aios-autonomous/src/cross_machine_healing.rs:313-331 | After a healthy observation and without a host to fail over to, a component found failed is isolated from its third bad observation on and restarted before. |
| FleetHealing.ExecutesExactly | crates/aios-autonomous/src/cross_machine_healing.rs:374-406 | Failover and isolation are refused within LocalOnly, nothing else is. |
| FleetHealing.DecisionsAreExecutable | crates/aios-autonomous/src/cross_machine_healing.rs:374-406 | Every decision is accepted in the scope it was taken in. |
| FleetHealing.FailoverGoesToFirst | crates/aios-autonomous/src/cross_machine_healing.rs:313-324 | The failover target is the first other reachable host of the same cluster in registry order. |
| FleetHealing.CascadeExcludesHealthy | crates/aios-autonomous/src/cross_machine_healing.rs:348-366 | A cascade names at least two hosts, exactly the ailing ones, each once, and excludes a healthy fleet report. |
| FleetHealing.CascadeExactly | crates/aios-autonomous/src/cross_machine_healing.rs:348-366 | A cascade is found iff two hosts are ailing. |
| FleetHealing.AilingIdsInOrder | crates/aios-autonomous/src/cross_machine_healing.rs:348-366 | The ailing hosts are named in registry order. |
| FleetHealing.RemovedInOrder | crates/aios-autonomous/src/cross_machine_healing.rs:233-235 | Removal acts on each host by its id and keeps the order. |
| FleetHealing.FleetHealthExactly | crates/aios-autonomous/src/cross_machine_healing.rs:189-220 | When each of the five reports is given. |
| FleetHealing.HealthyMeans | crates/aios-autonomous/src/cross_machine_healing.rs:189-220 | Healthy iff there are hosts, all reachable, none ailing. |
| VersionChain.Chain.Append | crates/aios-apps/src/version_chain.rs:97-111 | Appended iff the parent is the head's version or the chain is empty. |
| VersionChain.Chain.CurrentActive | crates/aios-apps/src/version_chain.rs:115-120 | The last active entry, or none. |
| VersionChain.Chain.RollbackTo | crates/aios-apps/src/version_chain.rs:131-156 | Succeeds iff the version occurs: then its first entry is active and the head, if another one, to be rolled back; otherwise nothing changes. |
| VersionChain.RunKeepsChain | crates/aios-apps/src/version_chain.rs:97-156 | Over any run each entry's parent is its predecessor's version, and only states are rewritten. |
| VersionChain.RollbackStates | crates/aios-apps/src/version_chain.rs:142-153 | A rollback changes the states of the target and of the retired head, and nothing else. |
| VersionChain.RollbackActivates | crates/aios-apps/src/version_chain.rs:131-156 | With at most one active entry before, the first entry of the version is the only active one and the head after. |
| VersionChain.RollbackLeavesOneActive | crates/aios-apps/src/version_chain.rs:142-153 | Exactly one is active after iff every active entry before was the head or the target. |
| VersionChain.RollbackHead | crates/aios-apps/src/version_chain.rs:115-153 | The target is the head after iff no other active entry lies behind it but the retired one. |
| VersionChain.OneActiveThroughoutExactly | crates/aios-apps/src/version_chain.rs:97-156 | In a run from the empty chain at most one entry is active at every moment iff no accepted append adds an active entry while another is active. |
| VersionChain.AppendKeepsOneActive | crates/aios-apps/src/version_chain.rs:97-111 | When an append keeps at most one active entry. |
| LuksPcrs.PcrsAreTheNamedOnes | distro/first-boot/aios-first-boot.rs:328-341 | The result is strictly increasing and has exactly the registers that parse. |
| LuksPcrs.FirstLabelCounts | distro/first-boot/aios-first-boot.rs:329-333 | The value is what follows the label on the first line that carries it, whatever comes later. |
| LuksPcrs.NoTokenExactly | distro/first-boot/aios-first-boot.rs:329-333 | No list is returned iff no line carries the label. |
| LuksPcrs.SplitExactly | distro/first-boot/aios-first-boot.rs:334-335 | The parts have no plus sign and make up the value when joined by it. |
| LuksPcrs.TrimExactly | distro/first-boot/aios-first-boot.rs:330-336 | Trimming takes off white space at both ends, and all of it. |
| LuksPcrs.ParsesExactly | distro/first-boot/aios-first-boot.rs:336 | A part reads as a register iff it is its decimal numeral, with any number of zeros in front. |
| LuksPcrs.SortPermutes | distro/first-boot/aios-first-boot.rs:338-339 | Sorting rearranges. |
| LuksPcrs.ExpectedPcrs | distro/first-boot/aios-first-boot.rs:344-351 | The expected registers are 0, 1 and 7. |
| LuksPcrs.MatchesExpectedExactly | distro/first-boot/aios-first-boot.rs:328-351 | The parsed list equals the expected one iff the parts that parse are 0, 1 and 7. |
| LuksPcrs.RoundTrip | distro/first-boot/aios-first-boot.rs:328-341 | Rendering any strictly increasing list on a labelled line, among other lines and with any padding, and parsing the dump gives it back, the empty list included. |

## Left out

- Prefixed identifiers (`crates/aios-action/src/id.rs`): that a text parses iff it is the prefix followed by a valid ULID, and prints back as itself. It follows from a case split around a library parser.
- Canonical JSON, BLAKE3 and Ed25519: the primitives are parameters of the package store; request hashing is not modelled.
- Evidence receipts and their chain: an event log and an emission that may be rejected stand for them.
- Container commands, run arguments, configuration builders and the health check: only their success, failure or printed state is an input.
- The first-boot phases, the solver, the adapters, the autonomy engine, the fleet cognition bridge and the other Capella scripts are not part of this model.
- Heartbeat counters are unbounded numbers; their 64-bit overflow is not modelled. The fleet counters saturate at 64 bits as in the source.
- Error messages, list filters and recipe search: that a listing holds exactly the entries that pass its filter. Errors carry the data, not the wording.
- The sort of the register parser is a function on sequences; the source sorts a vector in place with a library call.
