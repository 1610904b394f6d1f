# internalCMDB: verified models of its stateful core

The repository is a configuration-management database with a governance layer around automated
actions. This project models its hardest code in Dafny and proves what that code guarantees over
every input, run or interleaving. `dafny verify dfyconfig.toml` checks everything.

Code that updates state in place is a class whose methods are proved against a specification
function; the same functions drive the runs and interleavings the main lemmas speak about. Code made
of expressions (`predictor.py`) is functions and lemmas.

| module | models |
|---|---|
| `JsonPatch`, `Ordering`, `JsonDiff`, `JsonDiffTheorems`, `JsonDiffOrder` | the collectors' JSON diff, against an interpreter written from RFC 6901 (sections 3 to 5) and RFC 6902 (sections 4.1 to 4.3) |
| `Alerts`, `AlertFatigue`, `AlertRate`, `AlertGrouping`, `AlertIncidents` | alert suppression and its rate bound; deduplication and greedy grouping into incidents |
| `LinearRegression` | the predictor's least squares over `real` |
| `ExecutionLock`, `LockedWorkflow` | the Redis lock, and remediation plans running side by side over it |
| `PolicyMatrix`, `ActionRequests` | the policy table and check, and the seven-status request lifecycle |
| `HitlWorkflow` | human review items, escalation sweeps and decisions |
| `FixedWindow`, `Luhn` | the LLM layer's three limiters and its card-number check |
| `TokenBucket` | the motor's token bucket over an asyncio semaphore |
| `ChaosEngine` | the chaos experiment runner |
| `Lines`, `KeyMesh`, `KeyCollection` | Python's line handling, the authorized_keys merge, and the collection of the keys |
| `Common` | shared types |

## Where the code and its documentation disagree

The model follows the code in each case.

- `should_alert` says it suppresses more than 3 state changes; the test is `>= 3`
  (`src/internalcmdb/cognitive/alert_manager.py:93` against line 120, `AlertRate.FlappingRulesDiffer`). Its "5 min between alerts" per
  entity and metric does not hold when the state changed in between
  (`AlertRate.RepeatSurfacesExactly`), and two pairs that read alike around a colon share one record
  (`AlertFatigue.ShareRecordExactly`, `ColonsCollide`).
- Grouping is documented to relate alerts that fire within an incident window; the code looks at
  entity and metric only (`src/internalcmdb/cognitive/alert_manager.py:243-258`,
  `AlertIncidents.TogetherOnlyIfRelated`).
- Stored diffs are described as RFC 6902 patches (`src/internalcmdb/models/collectors.py:75`), but
  pointers are not escaped; `JsonDiffTheorems.PatchReproduces` says exactly when they still work.
- `extend` is said to extend the lock's time; it sets it, possibly to less
  (`ExecutionLock.ExtendSetsDeadline`, `ExtendCutsShort`).
- An approval record with an empty scope is documented to cover every entity; `create` reads it so and
  `approve` does not (`ActionRequests.CreateThenApprove`, `EmptyScopeRefused`).
- The token budget is documented as a rolling hourly window; it is a fixed one, and twice the budget
  can go out at once (`FixedWindow.WindowDoesNotSlide`, `RollingExactly` and `RollsExactly`).
- Keys are announced as collected from all nodes and LXC containers
  (`subprojects/cluster-key-mesh/mesh_keys.py:668`); those of the containers are stored under their
  address, looked up under their alias, and dropped (`KeyCollection.EveryKeyDistributedExactly`,
  `ClusterDropsContainers` and `PostgresDropped`).

## Model

| member | source | states |
|---|---|---|
| Ordering.SortedKeysAscend | src/internalcmdb/collectors/diff_engine.py:32 | `sorted` lists the keys once each, in ascending code-point order |
| JsonDiff.DiffEngine.DiffRecursive | src/internalcmdb/collectors/diff_engine.py:21-44 | the recursion appends to the shared list the operations that turn one value into the other, rendered under its path, and keeps the earlier ones in front |
| JsonDiff.DiffEngine.DiffObjects | src/internalcmdb/collectors/diff_engine.py:28-39 | the loop over the sorted keys does so for two objects |
| JsonDiff.DiffEngine.DiffKey | src/internalcmdb/collectors/diff_engine.py:33-39 | one round of that loop does so for one key |
| JsonDiff.ComputeJsonDiff | src/internalcmdb/collectors/diff_engine.py:10-18 | the public call returns the whole diff, whose meaning the next rows give |
| JsonDiffTheorems.DecodePointer | src/internalcmdb/collectors/diff_engine.py:33 | a path rendered as the engine does reads back as the same keys when none holds `/` or `~` |
| JsonDiffTheorems.DecodeEscaped | src/internalcmdb/collectors/diff_engine.py:33 | with its keys escaped as RFC 6901 has it, every path would read back, whatever the keys: escaping is all that is missing |
| JsonDiffTheorems.EditsEmpty | src/internalcmdb/collectors/diff_engine.py:21-44 | the diff is empty exactly when the documents are equal |
| JsonDiffTheorems.PatchReproduces | src/internalcmdb/collectors/diff_engine.py:10-44 | for all documents: applying the diff as a JSON Patch gives the new document if and only if the two differ only below keys free of `/` and `~` |
| JsonDiffTheorems.DirtyKeyIsLost | src/internalcmdb/collectors/diff_engine.py:33 | one changed top-level key with `/` or `~` in it and the patch cannot give the new document |
| JsonDiffTheorems.CleanDocumentsDiffCleanly | src/internalcmdb/collectors/diff_engine.py:10-44 | documents all of whose keys are free of `/` and `~` meet that condition |
| JsonDiffTheorems.SlashKeyBreaksThePatch | src/internalcmdb/collectors/diff_engine.py:33 | for a value changed under a key with one `/` in it, the patch fails to apply |
| JsonDiffTheorems.ChainReproduces | src/internalcmdb/models/collectors.py:74-85 | replaying the diffs of a chain of snapshots on the first gives the last |
| JsonDiffOrder.EditsAntichain | src/internalcmdb/collectors/diff_engine.py:28-44 | no emitted path is a prefix of another |
| JsonDiffOrder.EditsRoutes | src/internalcmdb/collectors/diff_engine.py:28-44 | every operation applies below an existing object of the old document |
| JsonDiffOrder.Commute | src/internalcmdb/collectors/diff_engine.py:28-44 | operations at unrelated paths give the same result, failure included, in either order |
| JsonDiffOrder.DoFirst | src/internalcmdb/collectors/diff_engine.py:28-44 | any operation of the diff may be done first |
| JsonDiffOrder.DiffAppliesInAnyOrder | src/internalcmdb/collectors/diff_engine.py:10-44 | every rearrangement of the diff gives the new document |
| AlertFatigue.AlertFatigueManager.ShouldAlert | src/internalcmdb/cognitive/alert_manager.py:89-148 | the answer, computed from the trimmed log and the cooldown record, is the one all alerts handed in so far determine, in the way the next rows say; the suppressed counter counts the refusals |
| AlertFatigue.ShareRecordExactly | src/internalcmdb/cognitive/alert_manager.py:97-101 | two alerts share a record if and only if entity, colon and metric read the same: for entities without a colon, if and only if both parts are equal |
| AlertFatigue.OthersDoNotMatter | src/internalcmdb/cognitive/alert_manager.py:97-148 | taking away all calls on other records changes no answer |
| AlertFatigue.FirstIsSurfaced | src/internalcmdb/cognitive/alert_manager.py:97-148 | an alert whose entity and metric no earlier call had together is surfaced, whatever went before (entities without a colon) |
| AlertFatigue.SecondSurfacesExactly | src/internalcmdb/cognitive/alert_manager.py:97-148 | the second call on a record, with any calls on others before, is surfaced if and only if it is critical, reports another state or comes 300 seconds or more after the first; absent fields read as unknown, unknown, firing and not critical |
| AlertFatigue.ColonsCollide | src/internalcmdb/cognitive/alert_manager.py:101 | a colon in an entity can make two different pairs share a record, and the second alert wait for the first |
| AlertFatigue.KeepRecent | src/internalcmdb/cognitive/alert_manager.py:110-113 | keeps the transitions of the last 900 seconds, in order |
| AlertFatigue.RecentExactly | src/internalcmdb/cognitive/alert_manager.py:110-113 | a transition is kept if and only if it is at most 900 seconds old |
| AlertFatigue.CountChanges | src/internalcmdb/cognitive/alert_manager.py:115-118 | counts the neighbouring entries with different states |
| AlertFatigue.AlertFatigueManager.Filter | src/internalcmdb/cognitive/alert_manager.py:107-148 | the two filters on the stored log and cooldown record, and what they leave stored |
| AlertFatigue.PassesExactly | src/internalcmdb/cognitive/alert_manager.py:107-144 | the answer the stored state gives is the one the key's whole history gives |
| AlertFatigue.FlappingMatches | src/internalcmdb/cognitive/alert_manager.py:108-120 | trimming the log on each call loses nothing: the flapping test is that of the full history |
| AlertFatigue.BooksKept | src/internalcmdb/cognitive/alert_manager.py:108-148 | logging a call keeps the stored state standing for the history |
| AlertRate.QuietRepeatWaits | src/internalcmdb/cognitive/alert_manager.py:132-148 | two surfaced alerts of one state are at least 300 seconds apart unless one of another state was surfaced between them, whatever was suppressed |
| AlertRate.RepeatSurfacesExactly | src/internalcmdb/cognitive/alert_manager.py:107-148 | after a surfaced alert of its key, a non-critical alert is surfaced if and only if the key is not flapping and 300 seconds have passed or its state is another one: exactly when the documented five minutes hold |
| AlertRate.Potential | src/internalcmdb/cognitive/alert_manager.py:89-148 | each further surfaced alert is paid for by a state change or by 300 seconds |
| AlertRate.RateBound | src/internalcmdb/cognitive/alert_manager.py:89-148 | on every run, critical alerts included, any 900 seconds surface at most 6 non-critical alerts of one key |
| AlertRate.SixAtMost | src/internalcmdb/cognitive/alert_manager.py:89-148 | so it is for the alerts sharing one record in every sequence of calls with a running clock |
| AlertRate.RateBoundIsReached | src/internalcmdb/cognitive/alert_manager.py:89-148 | a run that surfaces 6: the bound cannot be lowered |
| AlertRate.FlappingRulesDiffer | src/internalcmdb/cognitive/alert_manager.py:93-120 | the documented and the coded flapping rule differ on a call exactly when it is not critical, not cooling down, and makes three changes |
| AlertRate.ThirdChangeSuppressed | src/internalcmdb/cognitive/alert_manager.py:120 | a run with such a call |
| AlertGrouping.FindGroup | src/internalcmdb/cognitive/alert_manager.py:256-260 | finds the first group sharing the alert's entity or metric, if any |
| AlertGrouping.PlaceAlert | src/internalcmdb/cognitive/alert_manager.py:252-276 | the alert joins that group record, or opens a new last one; the other records are as before |
| AlertGrouping.GroupIntoIncidents | src/internalcmdb/cognitive/alert_manager.py:238-279 | the loop over fresh, separate group records yields the greedy grouping |
| AlertGrouping.GroupsPartition | src/internalcmdb/cognitive/alert_manager.py:238-279 | every alert is in one group, in order; a group's sets are exactly those of its alerts; each later alert of a group is related to an earlier one |
| AlertGrouping.TouchedIsRelated | src/internalcmdb/cognitive/alert_manager.py:258 | a group matches an alert exactly when one of its alerts shares the entity or the metric |
| AlertIncidents.EveryAlertPlacedRight | src/internalcmdb/cognitive/alert_manager.py:252-276 | an alert goes to the oldest group with a related earlier alert; a group's first alert is related to nothing before it |
| AlertIncidents.GroupConnected | src/internalcmdb/cognitive/alert_manager.py:252-276 | any two alerts of a group are joined by a chain of related alerts inside it |
| AlertIncidents.TogetherIffNoBridge | src/internalcmdb/cognitive/alert_manager.py:238-279 | related alerts always share an incident if and only if, for every alert, the earlier ones it is related to were already joined by a chain of related alerts before it |
| AlertIncidents.TogetherOnlyIfRelated | src/internalcmdb/cognitive/alert_manager.py:243-258 | two alerts grouped at one moment share an incident exactly when their entities or their metrics read the same: time plays no part |
| AlertIncidents.BridgeSplitsRelated | src/internalcmdb/cognitive/alert_manager.py:238-279 | three alerts for which they do not |
| AlertIncidents.DropRepeats | src/internalcmdb/cognitive/alert_manager.py:163-170 | the loop with the seen set keeps the first alert of each key |
| AlertIncidents.RepeatsExactly | src/internalcmdb/cognitive/alert_manager.py:227-236 | two alerts are repeats if and only if entity, metric, state and severity all agree, absent ones read as empty (none of the first three holding the separator) |
| AlertIncidents.UniqueKeepsEachKeyOnce | src/internalcmdb/cognitive/alert_manager.py:163-170 | what it keeps has every key once and loses none |
| AlertIncidents.MaxSeverity | src/internalcmdb/cognitive/alert_manager.py:281-290 | critical if any alert is, else warning if any is, else info, unknown severities included |
| AlertIncidents.Report | src/internalcmdb/cognitive/alert_manager.py:173-192 | one entry a group: the alert itself, or an incident with the group's count, sets and highest severity |
| AlertIncidents.EntryTells | src/internalcmdb/cognitive/alert_manager.py:175-192 | an entry of two or more alerts gives their number, exactly their entities and metrics, their highest severity and the first of them |
| AlertIncidents.GroupsHoldAll | src/internalcmdb/cognitive/alert_manager.py:238-279 | the groups' sizes add up to the number of alerts |
| AlertIncidents.IncidentManager.Deduplicate | src/internalcmdb/cognitive/alert_manager.py:154-201 | the reduced list reports the groups of the distinct alerts and accounts for each of them; the groups are added to the stored incidents |
| LinearRegression.NormalEquations | src/internalcmdb/cognitive/predictor.py:62-72 | the residuals of the fitted line sum to zero and are orthogonal to the xs |
| LinearRegression.LeastSquares | src/internalcmdb/cognitive/predictor.py:46-90 | no line has a smaller sum of squared residuals, and every other line has a larger one |
| LinearRegression.DenominatorSign | src/internalcmdb/cognitive/predictor.py:67 | the denominator is never negative, and zero exactly when all xs are equal |
| LinearRegression.WithheldExactly | src/internalcmdb/cognitive/predictor.py:52-69 | None is returned exactly for too few or unequally many values or a spread under the threshold; equal xs always give None |
| LinearRegression.ExplainedVariation | src/internalcmdb/cognitive/predictor.py:77-80 | the part of the total variation the line explains |
| LinearRegression.ClampIsIdle | src/internalcmdb/cognitive/predictor.py:77-88 | with positive total variation the raw coefficient is already in [0, 1], so the clamp changes nothing; it is 1 exactly when every point is on the line |
| LinearRegression.SquaredCorrelation | src/internalcmdb/cognitive/predictor.py:77-90 | the coefficient returned is the squared correlation of xs and ys: times both spreads it is the squared numerator; it is 0 for ys all equal |
| LinearRegression.SameEitherWay | src/internalcmdb/cognitive/predictor.py:77-90 | so it is the same with xs and ys exchanged |
| ExecutionLock.LockKeyExact | src/internalcmdb/motor/execution_lock.py:31-35 | two entity and action pairs share a key exactly when their sanitised parts are equal |
| ExecutionLock.LockService.Acquire | src/internalcmdb/motor/execution_lock.py:44-85 | sets the key with a fresh token only if it is free; denies when Redis is down |
| ExecutionLock.LockService.Release | src/internalcmdb/motor/execution_lock.py:87-121 | deletes the key only under its own token |
| ExecutionLock.LockService.Extend | src/internalcmdb/motor/execution_lock.py:123-167 | sets the key's remaining time only under its own token; a time that is not positive deletes it |
| ExecutionLock.LockService.IsLocked | src/internalcmdb/motor/execution_lock.py:169-185 | with Redis up, true exactly when somebody's claim on the key is still running, whatever commands led there; without it, always true |
| ExecutionLock.PresentExactly | src/internalcmdb/motor/execution_lock.py:169-173 | on every interleaving a key exists exactly while somebody's claim on it runs |
| ExecutionLock.AlwaysAgrees | src/internalcmdb/motor/execution_lock.py:44-167 | on every interleaving the keys in Redis are exactly the running claims of callers |
| ExecutionLock.MutualExclusion | src/internalcmdb/motor/execution_lock.py:44-167 | two callers never hold running claims on one key |
| ExecutionLock.GrantedExactly | src/internalcmdb/motor/execution_lock.py:60-85 | a lock is granted exactly when nobody's claim on its key is running |
| ExecutionLock.LastsExactly | src/internalcmdb/motor/execution_lock.py:60-85 | a lock granted and left alone is gone exactly when its window is over |
| ExecutionLock.ForeignTokenHarmless | src/internalcmdb/motor/execution_lock.py:94-144 | a release or extend with another token changes no entry and disturbs no other claim; a stale token changes nothing at all |
| ExecutionLock.ExtendSetsDeadline | src/internalcmdb/motor/execution_lock.py:135-144 | the new deadline is now plus the time asked for, which is earlier than before exactly when less was asked for than was left |
| ExecutionLock.ExtendCutsShort | src/internalcmdb/motor/execution_lock.py:135-144 | a 300-second lock extended by 1 second at once runs out after 1 second |
| LockedWorkflow.AlwaysOk | src/internalcmdb/governance/action_workflow.py:76-180 | with any number of plans interleaving at their awaits, every call's tokens, phase and locks stay in order and no two calls share a token |
| LockedWorkflow.NothingLeft | src/internalcmdb/governance/action_workflow.py:145-161 | in every consistent state, a returned call has no token left in Redis |
| LockedWorkflow.LockLastsExactly | src/internalcmdb/governance/action_workflow.py:140-144 | a lock not handed back is in Redis under its own token for exactly as long as less than 300 seconds, or less than twice the duration the action declares, have passed since it was granted |
| LockedWorkflow.NoOverlap | src/internalcmdb/governance/action_workflow.py:136-180 | in every state calls can reach, two plans sharing a lock key do not both run playbooks while for both less than 300 seconds, or less than twice the duration declared, have passed since they were granted it, whatever their other locks; nor does one plan that names a key twice |
| LockedWorkflow.SecondRunsExactly | src/internalcmdb/governance/action_workflow.py:136-180 | while a call runs, any automatic plan naming one of its locks, started now and resumed once per action, runs beside it if and only if none of its keys is in Redis and its keys differ; so not while that lock lasts |
| LockedWorkflow.AdvancesExactly | src/internalcmdb/governance/action_workflow.py:138-154 | a plan resumed m times has its first m locks, or was denied one and will never run; no other call has moved |
| LockedWorkflow.SlowPlanOverlaps | src/internalcmdb/governance/action_workflow.py:140-144 | a concrete run of two plans on one key, the first past its window |
| LockedWorkflow.RunsOnlyLocked | src/internalcmdb/governance/action_workflow.py:76-161 | playbooks run only for compliant auto-approved RC-1 plans, and only after every action's lock was granted |
| LockedWorkflow.ReturnsClean | src/internalcmdb/governance/action_workflow.py:145-161 | once a call has returned none of its tokens is left in Redis |
| LockedWorkflow.OthersUntouched | src/internalcmdb/governance/action_workflow.py:136-161 | a call's own steps change no entry held under another token, and add only its own |
| LockedWorkflow.ActionWorkflow.AcquireAll | src/internalcmdb/governance/action_workflow.py:138-154 | takes the locks in order until one is denied, or refused by a failing Redis, with anything happening at each await; the call then stands where the interleaving model says |
| LockedWorkflow.ActionWorkflow.ReleaseOne | src/internalcmdb/governance/action_workflow.py:147-161 | releasing one lock is one step of the interleaving model, whatever others did before it |
| LockedWorkflow.ActionWorkflow.ReleaseAll | src/internalcmdb/governance/action_workflow.py:147-161 | hands all locks back in order and leaves the call returned |
| LockedWorkflow.ActionWorkflow.PlayOne | src/internalcmdb/governance/action_workflow.py:166-179 | one round of the playbook loop: plays the action if its playbook is known, and of its own call moves the phase only |
| LockedWorkflow.AllSucceedExactly | src/internalcmdb/governance/action_workflow.py:166-179 | success from an action on means no known playbook from there on fails |
| LockedWorkflow.PlaysExactly | src/internalcmdb/governance/action_workflow.py:166-179 | an action is played if and only if its playbook is known and no known one before it failed |
| LockedWorkflow.PlaysInOrder | src/internalcmdb/governance/action_workflow.py:166-179 | in the order of the plan |
| LockedWorkflow.ActionWorkflow.RunPlaybooks | src/internalcmdb/governance/action_workflow.py:163-180 | plays the known actions in order up to the first failure, skips unknown ones, and succeeds exactly when none failed |
| LockedWorkflow.ActionWorkflow.AutoExecute | src/internalcmdb/governance/action_workflow.py:136-161 | plays nothing when denied a lock, and otherwise was granted one for every action first; the code stays in step with the interleaving model throughout, so the results above hold of it |
| LockedWorkflow.ActionWorkflow.ExecutePlan | src/internalcmdb/governance/action_workflow.py:69-161 | only the automatic route plays anything or touches a lock; a policy violation leaves the plan blocked for every later call; on return none of the call's tokens is in Redis |
| PolicyMatrix.FlagsFollowRisk | src/internalcmdb/control/policy_matrix.py:100-209 | the table's approval, quorum and snapshot flags agree with its risk classes |
| PolicyMatrix.TableByColumn | src/internalcmdb/control/policy_matrix.py:100-209 | the table read by column: which action classes are in each risk class, and which need each kind of evidence |
| PolicyMatrix.CodeRoundTrip | src/internalcmdb/control/policy_matrix.py:50-62 | a stored class code reads back as the class |
| PolicyMatrix.CheckApproval | src/internalcmdb/control/policy_matrix.py:383-414 | reports exactly the approval rules the context violates |
| PolicyMatrix.CheckQuorum | src/internalcmdb/control/policy_matrix.py:416-431 | reports exactly the quorum rules it violates; satisfied from two approvers on |
| PolicyMatrix.Check | src/internalcmdb/control/policy_matrix.py:330-377 | reports every violated rule and nothing else, and denies exactly what is not admissible |
| PolicyMatrix.AdmitsExactly | src/internalcmdb/control/policy_matrix.py:330-431 | nothing is violated exactly when the evidence is in order, a non-RC-1 action has an unexpired record of its class and scope, and an RC-4 action two approvers and a snapshot |
| ActionRequests.ActionWorkflow.Create | src/internalcmdb/control/action_workflow.py:132-184 | stores a request exactly when the policy admits it, pending or, for RC-1, approved; otherwise lists every violated rule and stores nothing |
| ActionRequests.ActionWorkflow.Approve | src/internalcmdb/control/action_workflow.py:186-285 | moves a pending request to approved under an unexpired record of its class covering its targets, with quorum for RC-4; every other case leaves the tables as they were and says why |
| ActionRequests.ActionWorkflow.BeginExecution | src/internalcmdb/control/action_workflow.py:287-320 | moves approved to executing, an RC-4 request only with its snapshot |
| ActionRequests.ActionWorkflow.Complete | src/internalcmdb/control/action_workflow.py:322-369 | moves executing to completed and adds its change-log row |
| ActionRequests.ActionWorkflow.Fail | src/internalcmdb/control/action_workflow.py:371-395 | moves executing to failed, adding the reason to the scope |
| ActionRequests.ActionWorkflow.Revoke | src/internalcmdb/control/action_workflow.py:397-421 | revokes a pending or approved request only |
| ActionRequests.ActionWorkflow.Deny | src/internalcmdb/control/action_workflow.py:423-447 | denies a pending request only |
| ActionRequests.Always | src/internalcmdb/control/action_workflow.py:132-447 | every run keeps every row warranted and the change log matched |
| ActionRequests.NoneWithoutApproval | src/internalcmdb/control/action_workflow.py:186-285 | a non-RC-1 request that is approved, executing, completed or failed went through an approve at some step of the run, with a record then unexpired, of its class, covering all its stored targets, with two approvers if RC-4; its row names that record |
| ActionRequests.StatusTells | src/internalcmdb/control/action_workflow.py:186-447 | on every run the status of a row tells exactly which operations on it went through: one executing, completed or failed began, one that began was approved unless it is RC-1, and so on for all seven |
| ActionRequests.SucceedsExactly | src/internalcmdb/control/action_workflow.py:186-447 | when each of the six operations succeeds on a row a run can reach, by the operations that went through before (and, for an approval, what the record must offer) |
| ActionRequests.NoneWithoutBegin | src/internalcmdb/control/action_workflow.py:287-369 | a request executing, completed or failed has a step of the run at which `begin_execution` took it out of approved, with its snapshot if RC-4 |
| ActionRequests.EndIsOnRecord | src/internalcmdb/control/action_workflow.py:347-447 | a terminal row shows the reason, or the change log the outcome and its author, given by the command that ended it |
| ActionRequests.StoredAsGiven | src/internalcmdb/control/action_workflow.py:139-177 | a row is added if and only if the policy admits the request, and holds its class, targets, record and snapshot flag |
| ActionRequests.ReadOnlyNeedsNone | src/internalcmdb/control/action_workflow.py:155-158 | RC-1 requests are born approved, never pending or denied, and never approved by anyone |
| ActionRequests.OnlyForward | src/internalcmdb/control/action_workflow.py:186-447 | no later step alters a request's class, targets or snapshot flag; statuses only move forward; a terminal row never changes again |
| ActionRequests.LogMatchesCompletions | src/internalcmdb/control/action_workflow.py:347-364 | change-log rows and completed requests are in one-to-one correspondence, and the row names the request's approval |
| ActionRequests.SnapshotNeverMissing | src/internalcmdb/control/action_workflow.py:304-313 | the D-006 denial when execution begins is unreachable |
| ActionRequests.CreateThenApprove | src/internalcmdb/control/action_workflow.py:246-251 | a request created under a record is approved with the same record if and only if the record lists every target; it fails only for an empty scope |
| ActionRequests.EmptyScopeRefused | src/internalcmdb/control/action_workflow.py:246-251 | a request on one target, created under a record with an empty scope and then refused with it |
| HitlWorkflow.HITLWorkflow.Submit | src/internalcmdb/governance/hitl_workflow.py:69-118 | adds a pending item with its class's priority and expiry under a fresh id; without a class it is RC-2 |
| HitlWorkflow.SubmittedByText | src/internalcmdb/governance/hitl_workflow.py:69-118 | priority and expiry of a new item by the text of its class: 15 minutes for RC-4, one hour for RC-3, four hours for RC-2 and for none given, never for any other |
| HitlWorkflow.ColumnKeepsText | src/internalcmdb/governance/hitl_workflow.py:72-73 | the risk class column keeps the text submitted, and the four class codes are always read as classes |
| HitlWorkflow.HITLWorkflow.Escalate | src/internalcmdb/governance/hitl_workflow.py:148-181 | raises an open item by one, to blocked at the third; anything else is refused |
| HitlWorkflow.HITLWorkflow.CheckEscalations | src/internalcmdb/governance/hitl_workflow.py:185-221 | one call raises, exactly once, each open item whose `expires_at` is not later than the clock reading of its class, changes no other row, and returns how many it raised |
| HitlWorkflow.WholeSweep | src/internalcmdb/governance/hitl_workflow.py:192-209 | the same of the three UPDATEs in a row, RC-4, RC-3 and RC-2, as steps of the model |
| HitlWorkflow.HITLWorkflow.Decide | src/internalcmdb/governance/hitl_workflow.py:229-272 | decides an open item with a valid decision, and nothing else |
| HitlWorkflow.TotalSwept | src/internalcmdb/governance/hitl_workflow.py:192-209 | the row count of one UPDATE is what it adds to the sum of the counts |
| HitlWorkflow.AlwaysOk | src/internalcmdb/governance/hitl_workflow.py:148-272 | on every run status, count and ruling agree (pending 0, escalated 1 or 2, blocked 3, decided at most 2); all escalations reported equal the sum of the counts, at most 3 an item |
| HitlWorkflow.ClosedForGood | src/internalcmdb/governance/hitl_workflow.py:158-251 | an item decided or blocked never changes again: decided at most once, never after being blocked |
| HitlWorkflow.SweptWhenExpired | src/internalcmdb/governance/hitl_workflow.py:75-80 | a sweep raises an item exactly when it is open, of the class, and past the `expires_at` set on submission |
| HitlWorkflow.NeverSwept | src/internalcmdb/governance/hitl_workflow.py:40-44 | sweeps never touch an item of a class without a threshold, RC-1 among them |
| HitlWorkflow.ThreeSweepsClose | src/internalcmdb/governance/hitl_workflow.py:185-221 | an item three sweeps of its class found past its threshold is not open, whatever was interleaved: undecided, it is blocked |
| HitlWorkflow.ThreeCallsClose | src/internalcmdb/governance/hitl_workflow.py:185-221 | on every run of calls and other steps, three calls past the 900, 3600 or 14400 seconds of an item's class close it: undecided, it is blocked |
| FixedWindow.LLMSecurityLayer.CheckTokenBudget | src/internalcmdb/llm/security.py:191-221 | grants exactly what fits the caller's current window, restarting it only after it is over |
| FixedWindow.LLMSecurityLayer.CheckActionScope | src/internalcmdb/llm/security.py:453-476 | the same, one action a call |
| FixedWindow.LLMSecurityLayer.CheckModelAccessRate | src/internalcmdb/llm/security.py:504-525 | the same, 120 accesses in 60 seconds |
| FixedWindow.LimitsAsConfigured | src/internalcmdb/llm/security.py:153-175 | the limit of each caller and the window of each limiter |
| FixedWindow.GrantedExactly | src/internalcmdb/llm/security.py:199-220 | on every run a call is granted if and only if, with what its caller was granted in the open window, it fits the limit; or, when none is open, fits it alone |
| FixedWindow.FirstCallRestarts | src/internalcmdb/llm/security.py:199-207 | the first call after a window is over starts the next one, granted or not |
| FixedWindow.WindowBound | src/internalcmdb/llm/security.py:191-221 | no window of a caller grants more than its limit, net of what negative requests gave back |
| FixedWindow.SlidingBound | src/internalcmdb/llm/security.py:191-221 | for every call sequence, any stretch of at most n windows grants a caller at most n + 1 times its limit |
| FixedWindow.SlidingBoundReached | src/internalcmdb/llm/security.py:191-221 | for every n a run grants n + 1 times the limit within n windows' length: the bound cannot be lowered |
| FixedWindow.TwiceTheLimit | src/internalcmdb/llm/security.py:153-173 | so each of the three limiters grants at most twice the limit in any one window's length |
| FixedWindow.WindowDoesNotSlide | src/internalcmdb/llm/security.py:194-208 | and that bound is reached in as short a time as one likes |
| FixedWindow.RollingExactly | src/internalcmdb/llm/security.py:194-208 | the documented rolling limit holds on every run if and only if the limit is zero |
| FixedWindow.RollsExactly | src/internalcmdb/llm/security.py:191-221 | on a given run, a stretch of one window's length meets at most two windows, and keeps the limit if and only if it meets one or the tail of the older and the head of the newer keep it together |
| FixedWindow.TwoWindowsMet | src/internalcmdb/llm/security.py:199-208 | the two windows such a stretch meets, more than a window apart |
| FixedWindow.NegativeRequestBuysRoom | src/internalcmdb/llm/security.py:210-220 | a request for q less than nothing, which the code accepts, lets q more than the limit out in one instant, for every q |
| FixedWindow.InstantBoundExactly | src/internalcmdb/llm/security.py:191-221 | with requests of at least m, the limit holds at every instant of every run if and only if m is not negative |
| FixedWindow.NegativeRequestsUnbounded | src/internalcmdb/llm/security.py:210-220 | with negative requests no bound holds, twice the limit included |
| Luhn.Collect | src/internalcmdb/llm/security.py:366 | lists the digits of a candidate in order, skipping everything else |
| Luhn.DigitsOfWritten | src/internalcmdb/llm/security.py:366 | the digits of a number as written are read back |
| Luhn.SeparatorSkipped | src/internalcmdb/llm/security.py:366 | any other character may be taken out |
| Luhn.WeightIsDigitSum | src/internalcmdb/llm/security.py:369-374 | what a digit adds is the digit sum of itself or, in every second place from the right, of its double |
| Luhn.LeadingZero | src/internalcmdb/llm/security.py:368-374 | leading zeros add nothing |
| Luhn.LuhnCheck | src/internalcmdb/llm/security.py:363-376 | the loop from the right accepts exactly the candidates of 13 or more digits whose weighted sum is a multiple of ten |
| Luhn.SingleChangeRejected | src/internalcmdb/llm/security.py:369-376 | no digit of an accepted number can be replaced by another |
| Luhn.MistypedDigitRejected | src/internalcmdb/llm/security.py:363-376 | the same for a digit character of the candidate text, whatever separates the digits |
| Luhn.SwapUnnoticedExactly | src/internalcmdb/llm/security.py:369-376 | swapping two neighbours goes unnoticed exactly when they are equal or 0 and 9 |
| Luhn.TwinUnnoticedExactly | src/internalcmdb/llm/security.py:369-376 | replacing a double digit by another goes unnoticed exactly for 22 and 55, 33 and 66, 44 and 77 |
| Luhn.OneCheckDigit | src/internalcmdb/llm/security.py:367-376 | a payload of 12 or more digits has exactly one accepted check digit |
| TokenBucket.TokenBucket.Acquire | src/internalcmdb/motor/concurrency.py:123-134 | goes through at once if and only if a unit is free and nobody in the queue may still want one; otherwise it joins the end of the queue |
| TokenBucket.TokenBucket.ResumeWaiter | src/internalcmdb/motor/concurrency.py:133-134 | a granted waiter takes its token, a cancelled one gives its grant back; afterwards no unit is left beside a waiter |
| TokenBucket.CancelledTakesNothing | src/internalcmdb/motor/concurrency.py:123-134 | a waiter that is cancelled leaves the queue without taking a token, granted or not; one granted and not cancelled takes it |
| TokenBucket.TokenBucket.Release | src/internalcmdb/motor/concurrency.py:136-140 | returns a token unless the bucket is full; it goes to the first waiter still pending, if any |
| TokenBucket.TokenBucket.RunRefillCycle | src/internalcmdb/motor/concurrency.py:159-165 | adds the refill rate, or less where the bucket fills up |
| TokenBucket.AlwaysOk | src/internalcmdb/motor/concurrency.py:123-174 | the balances below hold on every interleaving of acquires, cancellations, releases and refills |
| TokenBucket.CounterInStep | src/internalcmdb/motor/concurrency.py:133-140 | the counter is the semaphore's value plus the grants not yet taken up, and lies between 0 and the maximum |
| TokenBucket.CompletedBounded | src/internalcmdb/motor/concurrency.py:123-174 | completed acquires never exceed the maximum plus rate times cycles plus the releases that returned a token |
| TokenBucket.NoLostToken | src/internalcmdb/motor/concurrency.py:123-140 | once all woken and cancelled waiters have run, somebody waits only if the bucket is empty |
| TokenBucket.FirstComeFirstServed | src/internalcmdb/motor/concurrency.py:123-134 | nobody is granted a token before an earlier waiter that still waits |
| ChaosEngine.CapNeverBlocks | src/internalcmdb/motor/chaos.py:334-428 | the blast radius never reaches its cap |
| ChaosEngine.ProdDecides | src/internalcmdb/motor/chaos.py:49-51 | a target is a production target exactly when it contains "prod"; the other patterns add nothing |
| ChaosEngine.ProdSpelled | src/internalcmdb/motor/chaos.py:295-304 | that is, when it spells the four letters in a row, each in either case |
| ChaosEngine.RefusesExactly | src/internalcmdb/motor/chaos.py:202-332 | a call is refused if and only if the name is none of the five, or it is a live call on a production target without leave, or three experiments run, or one runs on that very target |
| ChaosEngine.ChaosEngine.RunExperiment | src/internalcmdb/motor/chaos.py:184-264 | refuses unknown, blocked and crowded-out calls, leaves a live call waiting for an approval it never gets, and registers a dry run under a fresh id with its host locked |
| ChaosEngine.ChaosEngine.Settle | src/internalcmdb/motor/chaos.py:272-276 | a call that ends frees its id and its own host's lock, and is recorded once |
| ChaosEngine.ChaosEngine.Register | src/internalcmdb/motor/chaos.py:250-259 | a call that is not blocked enters its experiment under a fresh id and locks its host |
| ChaosEngine.ChaosEngine.FinishSimulation | src/internalcmdb/motor/chaos.py:472-485 | records the result, successful exactly when the id was not aborted, and frees id and host |
| ChaosEngine.ChaosEngine.CancelSimulation | src/internalcmdb/motor/chaos.py:272-276 | a cancelled call is recorded as it stands, and frees id and host |
| ChaosEngine.ChaosEngine.AbortExperiment | src/internalcmdb/motor/chaos.py:356-371 | flags the id, and returns True exactly for a running experiment, which becomes ABORTED |
| ChaosEngine.LocksMatchRunning | src/internalcmdb/motor/chaos.py:258-276 | on every interleaving at most three experiments run, all dry runs, and host locks and running experiments match one to one |
| ChaosEngine.RegisteredExactly | src/internalcmdb/motor/chaos.py:184-259 | a call registers exactly when it is a dry run of a known experiment, on a free host, with room; it then adds one entry and touches no other |
| ChaosEngine.InExactlyOne | src/internalcmdb/motor/chaos.py:258-276 | once registered, an experiment is forever in exactly one of running and history, recorded at most once |
| ChaosEngine.AbortedNeverCompletes | src/internalcmdb/motor/chaos.py:356-371 | an experiment for which abort returned True stays ABORTED and unsuccessful whatever follows |
| ChaosEngine.CompletesExactly | src/internalcmdb/motor/chaos.py:472-485 | a simulation that wakes up completes exactly when its id was never aborted |
| Lines.SplitStrip | subprojects/cluster-key-mesh/mesh_keys.py:476-480 | stripping a line changes none of its words |
| Lines.RawLinesOfRender | subprojects/cluster-key-mesh/mesh_keys.py:542-543 | reading back lines written joined by newlines gives the lines, if none holds a line break |
| Lines.AnyLineEnd | subprojects/cluster-key-mesh/mesh_keys.py:474-476 | a text file reads the same whichever of the three line ends it has |
| Lines.SplitLinesFirst | subprojects/cluster-key-mesh/mesh_keys.py:399 | `splitlines` gives the text up to the first break and then the lines of the rest; a carriage return takes a newline with it |
| KeyMesh.ParseAuthorizedKeys | subprojects/cluster-key-mesh/mesh_keys.py:470-483 | the loop lists the non-blank lines, stripped, and the bodies of those with two words or more |
| KeyMesh.ParseClean | subprojects/cluster-key-mesh/mesh_keys.py:470-483 | the bodies are exactly those of the lines listed, and every such line is stripped, single and not blank |
| KeyMesh.WriteThenParse | subprojects/cluster-key-mesh/mesh_keys.py:474-543 | writing lines and parsing the file gives the same lines, stripped, and the same bodies |
| KeyMesh.MergeAuthorizedKeys | subprojects/cluster-key-mesh/mesh_keys.py:486-509 | the loop computes the merge, its two counts and the enlarged body set |
| KeyMesh.MergeCounts | subprojects/cluster-key-mesh/mesh_keys.py:486-509 | existing lines stay in front unchanged; added and skipped together count every well-formed key once; every old and new body is known afterwards |
| KeyMesh.MergeAddsFresh | subprojects/cluster-key-mesh/mesh_keys.py:499-508 | only keys of the list with bodies unknown before are appended, each body once |
| KeyMesh.AddsNothingExactly | subprojects/cluster-key-mesh/mesh_keys.py:499-509 | a merge adds nothing exactly when every body is known, and then leaves the lines alone |
| KeyMesh.SecondMergeAddsNothing | subprojects/cluster-key-mesh/mesh_keys.py:512-543 | after write and re-parse the earlier lines are still in front, and merging the same keys again adds nothing |
| KeyMesh.BrokenKeyNeverSettles | subprojects/cluster-key-mesh/mesh_keys.py:500-504 | a key with a line break between its words would be added again every time; no such key is ever collected, so this only shows that the previous row needs its single lines |
| KeyMesh.StorageBox.InstallKeys | subprojects/cluster-key-mesh/mesh_keys.py:512-566 | the remote file and the counts after a dry run, an idle merge, an upload and a failed upload |
| KeyMesh.InstallTwice | subprojects/cluster-key-mesh/mesh_keys.py:512-566 | two installations in a row: the second adds nothing, all bodies are in the file, and its earlier lines are still in front |
| KeyMesh.FailedDownloadClobbers | subprojects/cluster-key-mesh/mesh_keys.py:459-461 | after a failed download the file is rebuilt from the keys alone: its lines are exactly the first key of each body, stripped |
| KeyMesh.ClobberedKey | subprojects/cluster-key-mesh/mesh_keys.py:459-461 | so an authorized key not among the keys installed is lost |
| KeyCollection.CollectPubkeys | subprojects/cluster-key-mesh/mesh_keys.py:389-402 | the stripped key lines of a host's answer, none if it failed; each a single line, which is what the merge results ask of keys |
| KeyCollection.KeyLinesExactly | subprojects/cluster-key-mesh/mesh_keys.py:399 | a key is collected if and only if it is a stripped line of the answer that begins with `ssh-` or `ecdsa-` |
| KeyCollection.CollectResults | subprojects/cluster-key-mesh/mesh_keys.py:670-680 | each finished job's own answer, stored under the host it reached; a later answer replaces an earlier one |
| KeyCollection.CollectAllKeys | subprojects/cluster-key-mesh/mesh_keys.py:662-699 | nodes reached by alias, containers by address, results looked up by alias: the distinct keys, for every order of completion and any answers |
| KeyCollection.AddDistinct | subprojects/cluster-key-mesh/mesh_keys.py:692-696 | one host's keys, the well-formed ones with a body not seen before |
| KeyCollection.DistinctKeys | subprojects/cluster-key-mesh/mesh_keys.py:689-696 | name by name, the first key of each body |
| KeyCollection.DistinctAndComplete | subprojects/cluster-key-mesh/mesh_keys.py:688-696 | each body once, exactly the bodies of the results looked up, and no other key |
| KeyCollection.DistributedExactly | subprojects/cluster-key-mesh/mesh_keys.py:670-696 | a body is distributed if and only if an answer brought it whose host is one of the names looked up and that no later answer overwrote |
| KeyCollection.EveryKeyDistributedExactly | subprojects/cluster-key-mesh/mesh_keys.py:662-699 | all keys collected are distributed, however the jobs finish and whatever the hosts answer, if and only if every container address is itself a name looked up and no host is reached twice |
| KeyCollection.RepeatedNodeLoses | subprojects/cluster-key-mesh/mesh_keys.py:673-680 | a node listed twice, whose second answer brings no key, loses the key of its first |
| KeyCollection.ContainersDropped | subprojects/cluster-key-mesh/mesh_keys.py:674-692 | when no container's address is such a name, the list holds exactly the keys of each node's last answer |
| KeyCollection.ClusterDropsContainers | subprojects/cluster-key-mesh/mesh_keys.py:44-145 | in the cluster as configured the list holds exactly the keys the nodes answered with, and no container's |
| KeyCollection.PostgresDropped | subprojects/cluster-key-mesh/mesh_keys.py:136-145 | a case in point: the key of `postgres-main`, the only one collected, is not in the list |

## Left out

- Floating-point rounding, NaN and infinities (`predictor.py`, clocks): arithmetic is over `real` or `int`.
- Python's `1 == True` and `1 == 1.0`: JSON values are compared by structure.
- Incident ids, timestamps and `get_stats` of the alert manager; MD5 of an alert is its key string, so collisions of the hash are not modelled.
- Alert fields are optional strings; the `str` of other types is not modelled.
- AlertFatigue.AlertFatigueManager.ShouldAlert: takes the clock as a positive, never decreasing input, as `time.monotonic` gives it.
- Redis replies lost after the command took effect: the command either happens or is refused. Tokens are fresh numbers for UUID4.
- LockedWorkflow.ActionWorkflow.AutoExecute: Redis errors on release and cancellation inside the acquire loop, after which a lock waits for its expiry.
- LockedWorkflow.ActionWorkflow.RunPlaybooks: playbook outputs and error texts; an exception from a playbook unwinds like a failure.
- Policy evidence contracts per task type (`task_types.py`): the contract is an input of `PolicyMatrix.Check`; warnings are always empty and left out.
- Request codes and change codes are unique by assumption (their database constraint is not modelled); the caller's transaction, which may roll everything back, is not modelled.
- UUIDs of entities are canonical strings, whose text order is the UUID order; parsing them back is the identity.
- The result object of a chaos experiment is one value in the running map, not an object shared with the coroutine; observation texts, times and the exception branch, which a simulation cannot reach, are left out.
- Live chaos execution, timeout and rollback: unreachable while the approval stub returns False.
- HITL feedback rows, notifications and commits; SQL UPDATEs are atomic functions on the table, not loops.
- HitlWorkflow.HITLWorkflow.CheckEscalations: the object runs its three UPDATEs without a step of others in between; the run lemmas interleave them freely.
- Digits are ASCII: characters such as superscripts that `isdigit` also accepts are left out.
- The usage entry's unused copy of the limit; `llm/budget.py`, whose check and debit are separate calls.
- The asyncio semaphore is library code, modelled as CPython 3.12 and later have it.
- TokenBucket.TokenBucket.constructor: the ValueErrors of bad parameters are its preconditions; the start and stop of the refill task and its sleeping time are left out.
- Unicode lower-casing of chaos targets: ASCII only.
- SSH, SCP and subprocess transport of the key mesh: a download or upload succeeds or fails as a whole; installation over a remote shell and SSH-config propagation are left out.
- KeyCollection.CollectAllKeys: the thread pool; the order in which jobs finish and what hosts answer are inputs. Error texts of failed hosts are left out.
- Regular-expression scanning, LLM calls, knowledge graph, frontend, ORM models, loaders, migrations and small arithmetic helpers such as health scores: mostly library calls or easy members.
