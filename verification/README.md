# A verified model of the TraceFence control plane

TraceFence lets an operator, or an agent with authority, cancel or correct a part of a tree of
running agents without visiting the agents. A command changes one row: the control scope that the
targeted node (or its run) owns. Every node carries a frozen snapshot of the scopes on its path to
the root, and the action gateway, and every other service, compares that snapshot with the live
scopes before it lets the node do anything. This project models the control plane as a transition
system over its tables, proves what every transaction keeps, and from that proves what holds over
every run: a command that has committed stops its whole subtree, for good, although it never
enumerates it.

Five further protocols have modules of their own: the revision-validated reads of the proof builder,
the telemetry outbox, the reconciliation of telemetry evidence, the rate limiters, and the
severity lattice of proof verdicts.

## How the project is laid out

- `domain.dfy` has the rows, `transitions.dfy` the services as functions from a database to a
  database and an answer, `control_plane.dfy` the same services as methods of one object that
  updates its tables in place; each method is proved to take exactly the step of its function.
- `options.dfy` has the one option type that every module uses.
- `scopes.dfy`, `lineage.dfy` and `tools.dfy` hold the evaluation of snapshots, the two walks over
  parent links (for arbitrary, also cyclic, parent maps) and the tool registry.
- The invariant is built in layers: `tree.dfy` (snapshots and parents), `fences.dfy` (scopes and
  commands in bijection), `revocation.dfy` (the lazy check against eager revocation), `lives.dfy`
  (what one step may do to a node), `credentials.dfy`, `replacements.dfy`, `admissions.dfy`,
  `conservation.dfy`, `attribution.dfy`, `authority.dfy`. `coherence.dfy` puts the layers together,
  `steps.dfy` and `growth.dfy` prove that every service keeps them, and `Growth.ReachableCoherent`
  says that they hold in every reachable state, so each theorem that assumes `Coherent` holds there.
- What each call does is told a second time, independently of the services: `standing.dfy` says what it
  means to be live, barred or to blame in terms of rows and commands; `lease_calls.dfy`,
  `command_calls.dfy`, `registry_calls.dfy` and `gateway_calls.dfy` give every answer and the whole state
  after it in these terms; and `reference.dfy` proves that a call's reply is the only one that this
  reference admits. `counts.dfy` ties the counting queries to sets of rows and `accounts.dfy` the calls to
  the classes of the control proof.
- The theorems over runs are in `histories.dfy`, `eager.dfy`, `corrections.dfy`, `second_attempt.dfy`,
  `delegation.dfy`, `recoveries.dfy`, `replays.dfy`, `quotas.dfy`, `audit.dfy` and `lifecycle.dfy`.
- `seqlock.dfy`, `outbox.dfy`, `reconciliation.dfy`, `rate_limits.dfy` with `eviction.dfy`, and
  `verdicts.dfy` are the five independent protocols.

## What the model takes for granted

- Every service call is one atomic step. `checkpoint` and `seed_scenario` open a deferred
  transaction rather than an immediate one; they are taken to be atomic too.
- The clock strictly increases from one transaction to the next, and a service sees one time
  throughout. `activate`, `heartbeat` and the lease scan read the time before they take the write
  lock (src/tracefence/services/spawn_service.py:140, src/tracefence/services/spawn_service.py:299,
  src/tracefence/services/lease_service.py:33); the model reads it at the step.
- Digests and token hashes are injective, a sealed envelope opens only under the data it was sealed
  with, and identifiers and tokens are never reused.
- Whether a rate limiter refuses a call is part of the call; the limiters themselves are verified
  separately. Both limiters read the time before they take their lock
  (src/tracefence/rate_limits.py:33-36, src/tracefence/api/middleware.py:205-208), so that two threads
  can append their times out of order; the theorems take each limiter's requests in the order of their
  times. A limiter has room for at least one bucket: the settings demand a hundred
  (src/tracefence/config.py:275).

## Where the code and its documentation differ

- The architecture notes say that one command can create at most one replacement
  (ARCHITECTURE.md:105). The code allows another attempt after the previous one expired before its
  activation (src/tracefence/services/spawn_service.py:660-675). The model follows the code:
  `SecondAttempt.StoryEndsExpired` runs five calls from the empty registry to a lapsed first attempt,
  `SecondAttempt.TwoAttemptsForOneCommand` registers a second one there, and
  `Corrections.AnotherAttemptExactlyAfterExpiry` says, for every coherent registry and every call,
  exactly when a command that has a replacement gets another. What is true is that at most one attempt
  is ever activated and that all attempts together commit at most once
  (`Corrections.OneActivatedAttempt`, `Corrections.CorrectionActsAtMostOnce`).
- A per-client rate limit is not kept across the eviction of the client's bucket: the next request of
  a forgotten client is accepted, whatever it was granted before (`Eviction.EvictionForgets`). A client
  is forgotten exactly when at least as many other clients as there are buckets made a request since
  its own latest one (`Eviction.LeastRecentlyUsedSurvives`). A client to whom this does not happen
  before one of its requests keeps its limit in every window
  (`Eviction.LimitHoldsUnlessForgotten`), and the first excess is always the work of an eviction
  (`Eviction.AcceptedExactly`).
- The outbox states a cap of 300 seconds on its retry wait, which the exponent's own bound makes
  unreachable: the wait stops growing at 256 seconds (`Outbox.BackoffBounds`).
- A revision trigger looks at the new row of an update only, so an update that moved a row to
  another run would escape the old run's revision. `Seqlock.SilentExactlyWhenMoving` shows that this
  is the only way a change can escape. No service moves a row of the nine registry tables among the
  eleven that carry the triggers (`Histories.RowsKeepTheirRun`), nor of the two of the outbox
  (`Outbox.EventsKeepTheirRun`).

## Model

| member | source | states |
|---|---|---|
| Scopes.EvaluateScopes | src/tracefence/services/common.py:68-138 | one pass with a running status computes: allowed iff no item is outdated, cancelled iff some item is missing or cancelled |
| Scopes.MismatchMembers | src/tracefence/services/common.py:85-131 | the mismatches are exactly the outdated items of the snapshot |
| Scopes.EvaluationIgnoresOrder | src/tracefence/services/common.py:79-138 | verdict and effective status do not depend on the order of the snapshot |
| Scopes.PrimaryIsOutermost | src/tracefence/services/common.py:79-138 | the primary reason is that of the outermost outdated scope |
| Scopes.CommandsForMismatches | src/tracefence/services/common.py:229-257 | the loop lists the run's commands whose scope and resulting version a mismatch saw |
| Scopes.AttributedMembers | src/tracefence/services/common.py:229-257 | the attribution holds exactly the matching commands, oldest first, once each |
| Lineage.IsDescendant | src/tracefence/services/common.py:161-189 | terminates on every parent map and answers whether the target is a strict descendant |
| Lineage.IndexChildren | src/tracefence/services/common.py:192-226 | the children index is the inverse of the parent links of the run, cut at a time |
| Lineage.DescendantsIncludingSelf | src/tracefence/services/common.py:192-226 | terminates on every parent map; the result is the root and its descendants, each once |
| Lineage.WalksAgree | src/tracefence/services/common.py:161-226 | the subtree walk and the upward walk give the same answer for every pair of nodes |
| Lineage.UpRepeats | src/tracefence/services/common.py:173-188 | once a parent chain repeats a node it never leaves the nodes already seen |
| Tools.VerifyPostconditions | src/tracefence/services/tool_registry.py:87-140 | the flags say whether some postcondition is unbound, unmet or too fresh |
| Tree.SnapshotIsPath | src/tracefence/services/spawn_service.py:874-877 | a snapshot lists the run scope and the own scopes on the path to the root, all at version 1 |
| Tree.UnderIsReaches | src/tracefence/services/common.py:161-189 | in the registry, descent is what the authorization walk computes |
| Tree.UnderKeeps | src/tracefence/services/spawn_service.py:997-1001 | an ancestor shares the run, registered earlier and holds every capability of its descendants |
| Tree.RegisterTree | src/tracefence/services/spawn_service.py:845-940 | registering a child keeps the registry a tree with matching snapshots |
| Tree.CreateRunTree | src/tracefence/services/run_service.py:49-112 | creating a run keeps the registry a tree with matching snapshots |
| Fences.ScopesMatchCommands | src/tracefence/services/control_service.py:323-382 | an active scope is at version 1 and untargeted; any other is at version 2 and closed by exactly one command |
| Fences.CommitFenced | src/tracefence/services/control_service.py:323-382 | a command keeps scopes and commands in bijection: active at version 1, or closed at version 2 by one command |
| Fences.CommitRunsFenced | src/tracefence/services/control_service.py:340-346 | a run is cancelled exactly when its scope is closed |
| Fences.CalmFenced | src/tracefence/services/lease_service.py:32-121 | services that issue no command keep that bijection, also when a run completes or fails |
| Fences.GrowFenced | src/tracefence/services/spawn_service.py:863-872 | new scopes are active at version 1 and targeted by nothing |
| Revocation.LazyIsEager | src/tracefence/services/common.py:68-138 | the snapshot check allows a node exactly when no command targets it, an ancestor of it or its run |
| Revocation.RegisterJoined | src/tracefence/services/spawn_service.py:94-110 | a node registers only where no command applies, so whatever a command targets had registered before it |
| Revocation.CommitJoined | src/tracefence/services/control_service.py:323-382 | a command is later than every node it targets |
| Lives.HeartbeatAges | src/tracefence/services/spawn_service.py:298-380 | a heartbeat renews only a live lease and otherwise only demotes or expires the node |
| Lives.CheckpointAges | src/tracefence/services/spawn_service.py:382-454 | a checkpoint lets only a live node wait and otherwise only demotes or expires it |
| Lives.CompleteAges | src/tracefence/services/spawn_service.py:456-560 | completion ends only a live node and writes off others only as expired |
| Lives.ExpireStaleAges | src/tracefence/services/lease_service.py:32-121 | a lease scan only expires nodes |
| Lives.ActivateAges | src/tracefence/services/spawn_service.py:138-292 | only a pending node is activated; a rotated token needs a live lease |
| Lives.DenyAges | src/tracefence/services/action_gateway.py:271-280 | a denial only demotes an outdated node |
| LeaseCalls.HeartbeatExactly | src/tracefence/services/spawn_service.py:298-380 | a heartbeat is answered as done exactly for a live node, whose lease alone is renewed; otherwise the reason, the demotion or expiry and the acknowledgements are exact |
| LeaseCalls.CheckpointExactly | src/tracefence/services/spawn_service.py:382-454 | a checkpoint lets exactly a live node wait; otherwise status, reason, blamed command and acknowledgements are exact |
| LeaseCalls.CompleteExactly | src/tracefence/services/spawn_service.py:456-560 | a live worker is completed and with it its correction; a root completes with its run, writing off exactly the lapsed nodes, unless a node holds it up; the replacement lifecycle check never fires |
| LeaseCalls.ExpireExactly | src/tracefence/services/lease_service.py:32-121 | a scan expires exactly the nodes whose lease or intent overran, fails exactly the running runs whose root is among them, lapses exactly their pending corrections, and answers with their number |
| Reference.ScanExpires | src/tracefence/services/lease_service.py:32-121 | over any scan: exactly the nodes whose lease or intent overran expire, every other life stays, and the answer is their number |
| Reference.RunFailsWithItsRoot | src/tracefence/services/lease_service.py:75-86 | over any scan: a run fails, now, exactly if it is running, in the scan, and its working root's lease is over; any other stays as it is |
| Reference.WorkerIsDone | src/tracefence/services/spawn_service.py:543-557 | over any call: a live worker's completion is answered, done for good, closes its correction and touches nothing else |
| Credentials.RecoverSpawnSealed | src/tracefence/services/spawn_service.py:795-843 | after any rotation every envelope still holds the stored activation token |
| Credentials.RecoverActivationSealed | src/tracefence/services/spawn_service.py:161-204 | after any rotation every envelope still holds the stored node token |
| Credentials.ActivateSealed | src/tracefence/services/spawn_service.py:138-292 | activation keeps every envelope equal to the stored credential |
| Credentials.SealNewborn | src/tracefence/services/credential_recovery.py:114-165 | sealing the answer of a registration gives a node its only envelope for that credential |
| Credentials.ConsumeSealed | src/tracefence/services/spawn_service.py:214-232 | a node that is only now activated has no envelope for a node token yet |
| Replacements.DesignateReplaced | src/tracefence/services/spawn_service.py:660-768 | a registered replacement matches the manifest exactly, and an attempt it succeeds expired without activation |
| Replacements.ConsumeReplaced | src/tracefence/services/spawn_service.py:214-232 | only the designated pending attempt is activated |
| Replacements.FinishReplaced | src/tracefence/services/spawn_service.py:528-541 | completion keeps command and attempt in agreement |
| Replacements.SweepReplaced | src/tracefence/services/lease_service.py:62-74 | expiry keeps command and attempt in agreement |
| Replacements.ReplacementsAreLeaves | src/tracefence/services/spawn_service.py:966-994 | a spawn within the child budget is never under a replacement |
| Admissions.AdmitAdmitted | src/tracefence/services/action_gateway.py:104-169 | an action commits only for a live node that no command targets, with its capability, inside its contract and its invocation limit |
| Admissions.DenyAdmitted | src/tracefence/services/action_gateway.py:171-280 | a denial commits nothing and keeps every earlier commit justified |
| Admissions.ExecuteAdmitted | src/tracefence/services/action_gateway.py:51-391 | every call of the gateway keeps all recorded actions justified and their keys distinct |
| Admissions.LimitAllowed | src/tracefence/services/action_gateway.py:393-457 | an admitted recovery action stays within the manifest's invocation limit |
| Conservation.RunBalanced | src/tracefence/services/tool_registry.py:179-212 | a committed action is counted once, on its own run's rows, and named as their last action |
| Conservation.PlanBalanced | src/tracefence/services/tool_registry.py:215-300 | freezing a recovery contract counts nothing |
| Conservation.SeedBalanced | src/tracefence/services/state_service.py:29-79 | seeding initialises only rows that no action has touched |
| Conservation.ExecuteBalanced | src/tracefence/services/action_gateway.py:335-361 | counters and last actions equal the fold of the committed actions; denials and replays change nothing |
| Conservation.NeverRan | src/tracefence/services/tool_registry.py:145-158 | a count is zero exactly when there is no latest action |
| Attribution.AttributedIsTargets | src/tracefence/services/common.py:229-257 | a node's mismatches are attributed to exactly the commands that target it |
| Attribution.OutdatedIsAttributed | src/tracefence/services/action_gateway.py:171-189 | every outdated node is attributed to some command; the fallback is never taken |
| Attribution.MismatchIsClosed | src/tracefence/services/common.py:85-131 | the outdated items of a snapshot are exactly the scopes that targeting commands closed |
| Attribution.LiveExactly | src/tracefence/services/common.py:141-158 | a node is live exactly when its run is running, it works under an unexpired lease and no command targets it; the reason of a refusal is the first that fails |
| Standing.RuntimeExactly | src/tracefence/services/common.py:141-158 | the runtime check decides standing, and a targeted node is told how the outermost of its commands closed a scope |
| Standing.EvaluationExactly | src/tracefence/services/common.py:68-138 | the effective status is cancelled if some targeting command is no correction, superseded if all are, active if there is none |
| Standing.BlameExactly | src/tracefence/services/common.py:229-257 | the attribution ends with the latest command that targets the node |
| Standing.MarkExactly | src/tracefence/services/spawn_service.py:1003-1050 | demoting or expiring a node changes its status, adds the acknowledgements of exactly the targeting commands, and nothing else |
| Attribution.OwnMismatch | src/tracefence/services/action_gateway.py:247-269 | the mismatch paired with a command is that of the command's own scope |
| Attribution.StaleDenialRecords | src/tracefence/services/action_gateway.py:247-281 | a stale denial adds a match and an acknowledgement for every targeting command, and no other match |
| Attribution.NewDenialRight | src/tracefence/services/action_gateway.py:171-216 | the recorded primary command and mismatch belong together |
| Attribution.RecordAcksAdds | src/tracefence/services/action_gateway.py:460-481 | recording acknowledgements adds exactly the missing ones and changes none |
| Attribution.AcknowledgeAcked | src/tracefence/services/spawn_service.py:1003-1050 | every acknowledgement is of a command that targets its node, at version 2, later than the command |
| Authority.GuardIsRightful | src/tracefence/services/authority_service.py:18-58 | an agent passes only for strict descendants with the control capability, or as the root; run cancellation targets exactly the root |
| Authority.IssueAuthorized | src/tracefence/services/control_service.py:155-215 | a sourced command is the only result of its proposal and equals the authorized body; keys stay distinct |
| Authority.ProposeAuthorized | src/tracefence/services/proposal_service.py:42-88 | a new proposal has no authorization and no result |
| Authority.ReviewAuthorized | src/tracefence/services/proposal_service.py:90-148 | a review happens once and an accepted proposal carries its authorization |
| Authority.NewCommandIssues | src/tracefence/services/control_service.py:137-382 | what an issued command looks like: scope bumped once, run closed only by a cancellation, proposal linked |
| Authority.IssueOrSame | src/tracefence/services/control_service.py:55-136 | a call that issues nothing changes nothing, and an agent issues only while live |
| Authority.PlanFixes | src/tracefence/services/control_service.py:216-289 | a correction's manifest is childless and permits one invocation of its tool, none without a tool |
| CommandCalls.AuthorityExactly | src/tracefence/services/authority_service.py:18-58 | the authority decision, with its reason, in terms of the run's root, the control capability and strict descent |
| CommandCalls.CreatorExactly | src/tracefence/services/control_service.py:291-322 | the designated creator is the target's parent if it is live, else the live root if that is not the target, else nobody |
| CommandCalls.PlanExactly | src/tracefence/services/control_service.py:216-289 | a correction is planned exactly when its wishes repeat the policy; its manifest is the policy's, with postconditions that count the committed runs of the tools, and only missing service rows are added |
| CommandCalls.SourceExactly | src/tracefence/services/control_service.py:155-215 | a command claims a proposal exactly when it is accepted, unused, of the run, and its review authorized this very body; the digest checks never fire |
| CommandCalls.IssueExactly | src/tracefence/services/control_service.py:55-474 | the answer and the whole state after any call: repeats, refusals in their order, and a new command with every column |
| CommandCalls.ProposeExactly | src/tracefence/services/proposal_service.py:42-88 | a proposal is recorded exactly for a live reporter with the capability, a target of its own run and room in the quota |
| Reference.CorrectionDesignates | src/tracefence/services/control_service.py:291-322 | over any call: a correction that nothing else refuses designates the live parent, the live root only otherwise, is refused for want of a creator exactly if neither is live, and commits unless its scope is closed |
| Coherence.TickCoherent | README.md:125-139 | time passing keeps the whole invariant |
| Steps.ActivateCoherent | src/tracefence/services/spawn_service.py:138-292 | activation keeps the whole invariant and changes only what a transaction may |
| Steps.HeartbeatCoherent | src/tracefence/services/spawn_service.py:298-380 | the same for heartbeats, denied ones included |
| Steps.CheckpointCoherent | src/tracefence/services/spawn_service.py:382-454 | the same for checkpoints |
| Steps.CompleteCoherent | src/tracefence/services/spawn_service.py:456-560 | the same for completion of nodes and of runs |
| Steps.ExpireCoherent | src/tracefence/services/lease_service.py:32-121 | the same for the lease scan |
| Steps.ExecuteCoherent | src/tracefence/services/action_gateway.py:51-391 | the same for the action gateway |
| Growth.CreateRunCoherent | src/tracefence/services/run_service.py:27-165 | the same for creating a run |
| Growth.SeedCoherent | src/tracefence/services/state_service.py:22-79 | the same for seeding a scenario |
| Growth.SpawnCoherent | src/tracefence/services/spawn_service.py:65-136 | the same for spawning, recovered answers included |
| Growth.ReplaceCoherent | src/tracefence/services/spawn_service.py:582-792 | the same for creating a replacement |
| Growth.IssueCoherent | src/tracefence/services/control_service.py:55-474 | the same for issuing a command |
| Growth.ProposeCoherent | src/tracefence/services/proposal_service.py:42-88 | the same for creating a proposal |
| Growth.ReviewCoherent | src/tracefence/services/proposal_service.py:90-148 | the same for reviewing a proposal |
| Growth.StepCoherent | README.md:125-139 | every call after any time keeps the invariant: nodes join only below live parents, commands and commits only while the run runs |
| Growth.AfterCoherent | README.md:125-139 | every state of every run from a coherent state is coherent |
| Growth.ReachableCoherent | README.md:125-139 | every reachable state is coherent |
| Histories.WholeRunFence | README.md:10-11 | after a command no node it targets ever commits again, and no node ever joins what it targets |
| Histories.AuthorityNeverRegained | src/tracefence/services/common.py:141-158 | an activated node that is not live is never live again, whatever is called |
| Histories.DeadStaysDead | src/tracefence/services/spawn_service.py:298-454 | no single transaction revives such a node |
| Histories.RunClosesOnce | src/tracefence/services/run_lifecycle.py:13-77 | a closed run keeps its status and finish time and gains no node, command or commit |
| Histories.CancelledWithItsScope | src/tracefence/services/control_service.py:340-346 | a run is cancelled exactly when its scope is, and exactly when a cancellation of it has committed |
| Histories.AfterLater | src/tracefence/services/run_lifecycle.py:30-77 | no run rewrites the past: rows stay, and what is new is later |
| Histories.RowsKeepTheirRun | src/tracefence/db/engine.py:26-51 | over every run, no node, scope, intent, proposal, command, acknowledgement, attempt, match or service row moves to another run or disappears, so their triggers never miss a change |
| Eager.LazyRefinesEager | ARCHITECTURE.md:55-58 | over every run, the snapshot check refuses exactly the nodes that a machine walking the subtree at command time has marked |
| Eager.StepMarks | src/tracefence/services/control_service.py:323-382 | one step keeps the marks equal to the revoked nodes |
| Corrections.CorrectionActsAtMostOnce | src/tracefence/services/action_gateway.py:393-457 | all attempts of a correction together commit at most its permitted invocations, at most one, none without a tool |
| Corrections.CausedActionIsDesignated | src/tracefence/services/action_gateway.py:404-455 | each such commit is by the designated attempt, with the contract's tool and arguments |
| Corrections.OnlyReplaceAttempts | src/tracefence/services/spawn_service.py:582-792 | no other service registers a node caused by a command |
| Corrections.AnotherAttemptExactlyAfterExpiry | src/tracefence/services/spawn_service.py:660-675 | for any call on any coherent registry: a command that has a replacement gets another exactly by a replacement request in order, keyed or not, while the designated attempt has lapsed unactivated |
| SecondAttempt.StoryEndsExpired | src/tracefence/services/lease_service.py:62-74 | five calls from the empty registry reach a correction whose only replacement expired unactivated |
| SecondAttempt.TwoAttemptsForOneCommand | ARCHITECTURE.md:103-105 | at that reachable registry one more request registers a second replacement for the same command |
| Corrections.OneActivatedAttempt | src/tracefence/services/spawn_service.py:660-675 | of two attempts at most one was activated; a succeeded one is expired and never was |
| Corrections.ReplacementHasNoChild | src/tracefence/services/spawn_service.py:966-994 | replacements are leaves |
| Corrections.AdmissionExactly | src/tracefence/services/action_gateway.py:104-169 | an action is admitted exactly when the run is running, the node works under a live lease, no command targets it, it holds the capability and, for a replacement, its contract names this tool, these arguments, this environment and these resources and it has not acted yet |
| Corrections.ContractExactly | src/tracefence/services/action_gateway.py:393-457 | for an activated replacement the other checks of the contract ladder never fire |
| Delegation.CapabilityHeldByAncestors | src/tracefence/services/spawn_service.py:997-1001 | every committed action used a capability that every ancestor holds |
| Delegation.AgentsCommandBelow | src/tracefence/services/authority_service.py:18-58 | every agent-issued command aims strictly below its issuer or comes from the root, and spares its issuer |
| Delegation.CommandSparesOthers | src/tracefence/services/control_service.py:323-339 | a command leaves the evaluation of every node it does not target unchanged |
| Delegation.IssuerUnaffected | src/tracefence/services/control_service.py:55-474 | except for run cancellation, issuing leaves the issuer's own evaluation unchanged |
| Recoveries.AnswersAreCurrent | src/tracefence/services/credential_recovery.py:64-165 | every answered credential, fresh, recovered or rotated, is the one stored |
| Recoveries.AnswerIsSealed | src/tracefence/services/credential_recovery.py:114-165 | a keyed answer leaves an envelope about the node it named |
| Recoveries.OneKeyOneNode | src/tracefence/services/spawn_service.py:77-127 | operation, caller and key yield at most one node over a whole run |
| RegistryCalls.SpawnExactly | src/tracefence/services/spawn_service.py:65-136 | the answer and the whole state after any spawn: retries, budgets as numbers of rows, capabilities, and the new node with every column |
| RegistryCalls.ReplaceExactly | src/tracefence/services/spawn_service.py:582-792 | the same for replacements: the designated live creator registers the one replacement that the manifest describes, unless an attempt has not lapsed |
| RegistryCalls.GuardExactly | src/tracefence/services/spawn_service.py:634-740 | in a coherent registry the lineage, scope, version and digest checks of a replacement never fire |
| RegistryCalls.DesignatedFits | src/tracefence/services/spawn_service.py:613-632 | a recovered replacement is still the one its correction describes, so the repeated guard never refuses it |
| RegistryCalls.RecoverExactly | src/tracefence/services/spawn_service.py:795-843 | a retry is answered exactly while the node waits for its activation, with the stored credential or, past the envelope's time, with a new one in its place |
| RegistryCalls.ActivateExactly | src/tracefence/services/spawn_service.py:138-292 | the bearer of an unspent, unexpired intent activates its pending node exactly if no command targets it; the lifecycle check of a replacement never fires |
| RegistryCalls.SeedExactly | src/tracefence/services/state_service.py:22-79 | a run gets its three services in their initial state exactly once, before it has a child, a command or an action |
| Replays.OneKeyOneAction | src/tracefence/services/action_gateway.py:69-82 | node and key name one action over a whole run; a repeat returns its decision and changes nothing |
| GatewayCalls.DecisionExactly | src/tracefence/services/action_gateway.py:104-169 | the ladder lets exactly the nodes act that may, and denies the others for their standing, the first broken term of their contract, or the missing capability |
| GatewayCalls.ExecuteExactly | src/tracefence/services/action_gateway.py:51-391 | the answer and the whole state after any call: repeats, refusals, denials with their matches and acknowledgements, and commits with the tool's effect and result |
| Reference.DecisionIsRecord | src/tracefence/services/action_gateway.py:484-492 | over any call: the answered decision and reason are those on record for this node and request, new exactly if no duplicate, and committed exactly if allowed |
| Reference.AllowedExactly | src/tracefence/services/action_gateway.py:82-169 | over any call with a fresh key: allowed exactly if the node may act, the arguments are valid and the run has room |
| Replays.OneKeyOneCommand | src/tracefence/services/control_service.py:106-120 | issuer and key name one command of a run over a whole history; a repeat changes nothing |
| Replays.ReviewedOnce | src/tracefence/services/proposal_service.py:90-148 | after a review, over any history, every further review is refused and changes nothing, the verdict stays, and every command that names the proposal has the authorized body, so a rejected one never leads to a command |
| Quotas.QuotasHold | ARCHITECTURE.md:19-30 | in every reachable state the active runs and, per run, the nodes, depth, fan-out, commands, attempts and proposals are within their budgets |
| Quotas.QuotasKept | src/tracefence/services/spawn_service.py:942-964 | from any coherent registry within its budgets no history leaves them |
| Counts.NodesCounted | src/tracefence/services/spawn_service.py:942-964 | the node count of a budget is the number of the run's nodes |
| Counts.ChildrenCounted | src/tracefence/services/spawn_service.py:955-964 | the fan-out of a budget is the number of the parent's children |
| Counts.ActiveRunsCounted | src/tracefence/services/run_service.py:40-56 | the active-run count is the number of runs that are not closed |
| Counts.CommandsCounted | src/tracefence/services/control_service.py:140-153 | the command count is the number of the run's commands |
| Counts.AttemptsCounted | src/tracefence/services/action_gateway.py:90-102 | the action count is the number of the run's attempts |
| Counts.ProposalsCounted | src/tracefence/services/proposal_service.py:64-75 | the proposal count is the number of the run's proposals |
| Counts.CommittedCounted | src/tracefence/services/action_gateway.py:445-457 | the invocation count is the number of the node's committed actions |
| Reference.EveryCallDoes | README.md:125-139 | for every coherent registry, every call and every time, the reply, answer and whole new state, is the only one that the reference relation admits |
| Audit.AffectedNodes | src/tracefence/services/proof_service.py:311-325 | the proof builder's list holds exactly the nodes its walk affects, once each |
| Audit.AffectedAgree | src/tracefence/services/invariant_service.py:58-68 | the walk cut at command time, the auditor's snapshot test and the current subtree agree |
| Audit.BuildControlProof | src/tracefence/services/proof_service.py:367-484 | on any registry a class counts exactly the affected nodes with evidence for it and for no earlier class; the stale attempts, stale commits and interrupted nodes are counted exactly |
| Audit.ClassifyExactly | src/tracefence/services/proof_service.py:370-407 | a node is put into the first class that its completion, acknowledgements, matches or lease give evidence for |
| Audit.ProveControl | src/tracefence/services/proof_service.py:406-484 | on a coherent registry both alarms are zero, and the verdict is verified exactly when every targeted node is accounted for |
| Audit.NoStaleCommitNoInterruption | src/tracefence/services/proof_service.py:414-461 | no affected node has committed since the command and no other node was interrupted by it |
| Audit.DiscoverCandidates | src/tracefence/services/invariant_service.py:70-115 | on any registry the nested loops find exactly the violations, each once |
| Audit.AuditIsClean | src/tracefence/services/invariant_service.py:70-115 | on a coherent registry there is nothing to find |
| Audit.ScanConverges | src/tracefence/services/lease_service.py:36-100 | once leases and intents have run out, one scan leaves every targeted node accounted for |
| Accounts.DemotionAcknowledges | src/tracefence/services/spawn_service.py:298-454 | a heartbeat or checkpoint that demotes an unconverged node accounts for it as having acknowledged the command |
| Accounts.DenialBlocks | src/tracefence/services/action_gateway.py:171-281 | a denial for closed scopes accounts for it as blocked at the gateway, if it had not acknowledged |
| Accounts.ExpiryRunsOut | src/tracefence/services/lease_service.py:61-110 | a scan that expires it accounts for it as having run out of its lease, if nothing else does |
| Lifecycle.NewRootIsLive | src/tracefence/services/run_service.py:27-165 | a created run's token authenticates its root, which is live exactly when leases last, and no older node gains or loses authority |
| Lifecycle.CompletionOfRun | src/tracefence/services/spawn_service.py:472-541 | a live root's completion is refused for live nodes exactly when one blocks it, changing nothing; otherwise the run closes with every node settled or revoked |
| Lifecycle.StaleDenialIsExact | src/tracefence/services/action_gateway.py:247-281 | the matches a stale denial records are in bijection with the dead scopes of the snapshot, each acknowledged |
| RateLimits.AuthenticatedRateLimiter.Check | src/tracefence/rate_limits.py:25-49 | one check takes one step of the table; an unknown category touches nothing |
| RateLimits.RateLimitMiddleware.Consume | src/tracefence/api/middleware.py:176-193 | one request takes one step of the table and a refusal returns the wait |
| RateLimits.PopExpired | src/tracefence/rate_limits.py:44-45 | the loop drops exactly the leading entries that left the window |
| RateLimits.MoveToEnd | src/tracefence/rate_limits.py:42-43 | the recency order without the key, then the key |
| RateLimits.TouchTidy | src/tracefence/rate_limits.py:37-43 | the table never exceeds its size and eviction removes one other key at most |
| RateLimits.TableRefinesHistory | src/tracefence/rate_limits.py:25-49 | an unevicted bucket is its accepted history of the last window; any limit plus one acceptances span a window |
| RateLimits.BucketWithinLimit | src/tracefence/rate_limits.py:44-48 | a bucket never holds more than its limit |
| RateLimits.RetryAfterIsExact | src/tracefence/api/middleware.py:189-190 | after the returned wait there is room, and after any shorter whole wait there is not |
| Eviction.LeastRecentlyUsedSurvives | src/tracefence/rate_limits.py:36-43 | a client has its bucket exactly when it made a request and fewer other clients than there are buckets made one since |
| Eviction.TableIsRecent | src/tracefence/rate_limits.py:36-43 | the table's order is the tail of the recency order of all clients ever seen |
| Eviction.TableDecides | src/tracefence/rate_limits.py:25-49 | the limiter with its bounded table decides every request as a limiter without a table that forgets a client when enough others came |
| Eviction.LimitHoldsUnlessForgotten | src/tracefence/rate_limits.py:25-49 | of all requests ever accepted of a client that is not forgotten between its requests, no window of sixty seconds holds more than the limit |
| Eviction.FewClientsAreNeverForgotten | src/tracefence/rate_limits.py:38-40 | with no more clients than buckets nobody is forgotten |
| Eviction.EvictionForgets | src/tracefence/rate_limits.py:38-41 | the next request of a forgotten client is accepted whatever it was granted before |
| Eviction.AcceptedExactly | src/tracefence/rate_limits.py:44-48 | for a client not forgotten so far, the next request is accepted exactly when its window has room or it has just been forgotten |
| Eviction.TwoWithinTheLimit | src/tracefence/rate_limits.py:38-41 | a concrete run: with one bucket a limit of one is exceeded within two seconds, with two buckets it is not |
| Verdicts.CombineIsMostSevere | src/tracefence/services/proof_service.py:62-79 | the result is one of the verdicts, none is more severe, inapplicable dimensions are ignored |
| Verdicts.CombineIgnoresOrder | src/tracefence/services/proof_service.py:62-79 | order and repetition do not matter |
| Verdicts.CombineIsSemilattice | src/tracefence/services/proof_service.py:62-79 | commutative, associative, idempotent, with not-applicable as identity |
| Verdicts.NestedIsFlat | src/tracefence/services/proof_service.py:471-533 | combining combined groups is combining everything at once |
| Verdicts.VerifiedMeansEverything | src/tracefence/services/proof_service.py:875-888 | the overall verdict with its nested recovery and runtime verdicts is the flat combination |
| Reconciliation.Reconcile | src/tracefence/signoz/mcp_client.py:974-1097 | telemetry is verified exactly when the evidence is exact; unavailable and partial exactly when they should be |
| Reconciliation.Duplicates | src/tracefence/signoz/mcp_client.py:1100-1107 | the set of values that occur at two positions |
| Reconciliation.CheckRows | src/tracefence/signoz/mcp_client.py:1143-1175 | no discrepancy exactly when every row fits its runtime record |
| Reconciliation.BlockedExactly | src/tracefence/signoz/mcp_client.py:1036-1080 | the id and row checks pass exactly when the rows are a permutation of the runtime's blocked actions |
| Reconciliation.CleanIsExact | src/tracefence/signoz/mcp_client.py:1018-1083 | all checks are silent exactly when the evidence is exact |
| Reconciliation.VerdictIgnoresOrder | src/tracefence/signoz/mcp_client.py:974-1097 | the verdict, whichever it is, is the same for every reordering of the evidence lists and of the runtime's blocked actions |
| Seqlock.SilentExactlyWhenMoving | src/tracefence/db/engine.py:65-93 | a write changes what a proof reads without bumping the revision exactly when it moves a row of the run away |
| Seqlock.UnchangedRevisionIsConsistent | src/tracefence/db/engine.py:40-51 | an unchanged revision means every read in between saw one state |
| Seqlock.StabilityLoop | src/tracefence/services/proof_service.py:174-224 | at most three builds; the first with an unchanged revision is returned and read one state, else the state changed |
| Seqlock.ProofCache.Lookup | src/tracefence/services/proof_service.py:152-163 | a cache hit shows the run's rows exactly as they are now |
| Seqlock.ProofCache.Store | src/tracefence/services/proof_service.py:184-203 | a stable build is stored under the revision it was validated against |
| Seqlock.ProofCache.Prove | src/tracefence/services/proof_service.py:134-224 | whatever is answered as stable, from the cache or after at most three builds, shows the run at one instant of the call; otherwise the revision moved during every build |
| Seqlock.SoundLater | src/tracefence/services/proof_service.py:152-163 | entries stay truthful while writers go on |
| Outbox.OutboxStore.Scan | src/tracefence/services/invariant_service.py:117-178 | each new violation is inserted once together with its event |
| Outbox.OutboxStore.ClaimPending | src/tracefence/services/invariant_service.py:180-209 | the oldest claimable events up to the limit are claimed and their attempts counted |
| Outbox.DeliveredForGood | src/tracefence/services/invariant_service.py:270-289 | an acknowledgement by the holder delivers an exported event for good, over any continuation; by a worker that lost its claim it changes nothing |
| Outbox.FailureFreesTheEvent | src/tracefence/services/invariant_service.py:290-308 | a failure recorded by the holder makes the event claimable exactly from the end of its backoff on; by another worker it changes nothing |
| Outbox.UndisturbedDelivers | src/tracefence/services/invariant_service.py:211-289 | a worker whose next event is still its own exports it once, delivers it and goes on |
| Outbox.FailedExportRetries | src/tracefence/services/invariant_service.py:234-308 | after a failed export or flush the failure and its backoff are recorded, the event is free and the worker goes on |
| Outbox.LostEventIsSkipped | src/tracefence/services/invariant_service.py:222-233 | an event that another worker took over is skipped without an export |
| Outbox.ClaimLasts | src/tracefence/services/invariant_service.py:180-209 | a claim keeps its event from everybody for thirty seconds and no longer |
| Outbox.EveryInterleavingKeeps | src/tracefence/services/invariant_service.py:211-311 | under every interleaving events match violations one to one, claim and delivery shapes hold, a delivered event never changes |
| Outbox.ExportsWithinAttempts | src/tracefence/services/invariant_service.py:234-269 | exports never exceed claims, and a delivered event was exported |
| Outbox.StepKeeps | src/tracefence/db/models.py:636-644 | each single step keeps the schema's shapes and freezes what is delivered |
| Outbox.ClaimedExactly | src/tracefence/services/invariant_service.py:180-209 | an event is claimed exactly when it is claimable and fewer than the limit of older events are |
| Outbox.NothingIsLost | src/tracefence/services/invariant_service.py:180-209 | a claimable event is claimed by one of the next workers as soon as their claims together have room for the claimable events before it, and not otherwise |
| Outbox.EventsKeepTheirRun | src/tracefence/db/engine.py:26-51 | under every interleaving an event keeps its violation and with it its run |
| Outbox.BackoffBounds | src/tracefence/services/invariant_service.py:297-301 | the wait doubles with each attempt and stops at 256 seconds |
| ControlPlaneService.ControlPlane.Transition | src/tracefence/services/run_lifecycle.py:30-77 | the conditional update succeeds exactly on an allowed edge from an unfinished run |
| ControlPlaneService.ControlPlane.Seed | src/tracefence/services/state_service.py:22-79 | the object takes the step of seeding |
| ControlPlaneService.ControlPlane.Spawn | src/tracefence/services/spawn_service.py:65-136 | the object takes the step of spawning |
| ControlPlaneService.ControlPlane.Replace | src/tracefence/services/spawn_service.py:582-792 | the object takes the step of creating a replacement |
| ControlPlaneService.ControlPlane.ActivateNode | src/tracefence/services/spawn_service.py:138-292 | the object takes the step of activation |
| ControlPlaneService.ControlPlane.Beat | src/tracefence/services/spawn_service.py:298-380 | the object takes the step of a heartbeat, committing a denial's effects |
| ControlPlaneService.ControlPlane.Check | src/tracefence/services/spawn_service.py:382-454 | the object takes the step of a checkpoint |
| ControlPlaneService.ControlPlane.WriteOffOthers | src/tracefence/services/spawn_service.py:472-517 | the loop writes off what ran out and reports whether a live node remains |
| ControlPlaneService.ControlPlane.CompleteNode | src/tracefence/services/spawn_service.py:456-560 | the object takes the step of completion, rolling refusals back |
| ControlPlaneService.ControlPlane.Expire | src/tracefence/services/lease_service.py:32-121 | the object takes the step of the lease scan |
| ControlPlaneService.ControlPlane.SweepNode | src/tracefence/services/lease_service.py:61-110 | the object takes the step of expiring one node |
| ControlPlaneService.ControlPlane.Issue | src/tracefence/services/control_service.py:55-136 | the object takes the step of issuing, using the real parent walk for authority |
| ControlPlaneService.ControlPlane.IssueNew | src/tracefence/services/control_service.py:138-215 | a terminal run, a spent quota or a proposal that does not bind refuses the command |
| ControlPlaneService.ControlPlane.PlanAndCommit | src/tracefence/services/control_service.py:216-382 | the object plans and commits a new command or rolls everything back |
| ControlPlaneService.ControlPlane.RecoverReplacement | src/tracefence/services/spawn_service.py:613-632 | a recovered answer is undone when the correction no longer permits it |
| ControlPlaneService.ControlPlane.PlanReplacement | src/tracefence/services/control_service.py:216-289 | the policy branches compute the planned manifest or the refusal |
| ControlPlaneService.ControlPlane.Commit | src/tracefence/services/control_service.py:323-425 | one scope is bumped, a cancelled run closed, the command inserted, its proposal linked |
| ControlPlaneService.ControlPlane.Execute | src/tracefence/services/action_gateway.py:51-391 | the object takes the step of the gateway |
| ControlPlaneService.ControlPlane.DenyStale | src/tracefence/services/action_gateway.py:171-281 | attempt, matches, status and acknowledgements of a stale denial |
| ControlPlaneService.ControlPlane.AddMatches | src/tracefence/services/action_gateway.py:247-269 | the loop records one match per attributed command |
| ControlPlaneService.ControlPlane.AddAcks | src/tracefence/services/spawn_service.py:1022-1050 | the loop adds the missing acknowledgements |
| ControlPlaneService.ControlPlane.Serve | README.md:125-139 | any call after any time takes the step of the transition system and keeps the object coherent |

## Left out

- HTTP routes, authentication of operators, CORS and headers, the frontend and the command line: input and output around the services.
- Lineage paths, runtime events, heartbeat times, process ids, trace contexts, decision explanations and live-scope listings: recorded and displayed, read by none of the modelled decisions.
- The gauges that the lease service refreshes, and all metrics and logging: observation only.
- Replacement, recovery-action and stability verdicts of a proof (src/tracefence/services/proof_service.py:588-872): only the postcondition loop is modelled; the facts they test are proved in `Corrections` and `Replacements`.
- The telemetry query adapters and their response schemas: reconciliation starts from parsed rows, and a schema error is one case of the evidence.
- Real cryptography, JSON canonicalisation and identifier generation: replaced by injective digests, ideal sealing and fresh numbers.
- Tool argument values beyond the allowed keys: every registered tool takes no argument, and an executor never fails once its arguments are valid.
- The unique-constraint replay of a command that loses an insertion race (src/tracefence/services/control_service.py:427-440): a service call is one atomic step here.
- Single flight of concurrent proof builds, and the age limit of a cached proof: the cache model keeps its revision check and its expiry only.
- The read of the command row that precedes the revision read (src/tracefence/services/proof_service.py:300-306): the consistency theorem covers the reads between the revision read and its re-check.
- The health check and flush that surround a delivery batch: an export step either reaches the exporter or fails.
- Bucket keys as text and client-address extraction: a key is a category and an identity.
- ControlPlaneService.ControlPlane.Serve: takes whether a rate limiter refuses the call as part of the call, because the limiters keep their own state outside the registry.
