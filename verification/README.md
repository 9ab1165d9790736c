# Orquesta, modelled and proved in Dafny

This project models the parts of Orquesta whose correctness rests on protocols and state machines, and proves what
those parts are for. The sources are written for Dafny 4.11; `dfyconfig.toml` lists them.

**Effect protocol** (`Outbox`, `Boundary`, `Reactor`, `ReactorClaims`, `ReactorWitness`, `Callback`). An outbox effect
moves from pending to claimed to sending to settled under leases with fencing tokens. Three boundaries commit to one
append-only journal by compare-and-swap and answer retries from receipts. Any number of reactors plan on a replay,
claim, begin a send and enter the provider; they crash, lose their fresh claims and lose responses. The main results: a
provider mutation is entered at most once per effect, an id is committed at most once and a recorded receipt is exactly
what its retries are answered with, and every worker callback is sorted into exactly one case.

**Effect lifecycle** (`Lifecycle`, `LifecycleSnapshot`, `Retry`, `Planner`, `PlannerLaws`). The violation search over
lanes, goals, generations and attention is proved equal to a short predicate; goals are linear retry chains; an admitted
retry keeps the work order free of violations; and the planner claims only when nothing in the work order stands in the
way, and plans every other action exactly when the projector would accept it.

**Plans and acceptance** (`Plan`, `PlanGraph`, `PlanCanonical`, `Acceptance`, `AcceptanceLaws`, `Satisfiability`). Graph
validation equals acyclicity plus the integration rules, normalization is idempotent and blind to order, the evaluator
accepts exactly the acceptable snapshots, whose checks are in bijection with the plan's requirements, and a valid plan
can be fulfilled exactly when it has at most 128 requirements.

**File-backed ledger** (`TargetLock`, `TaskLedger`, `TaskLedgerLaws`, `ProgressArchive`). The link-and-rename lock, the
hash-guarded progress and acceptance commands on top of it, and the archive and event log beside them.

**Projection events** (`Coordinator`, `CoordinatorFaults`), **capacity** (`Capacity`, `CapacityLaws`) and **skill
distribution** (`Distribution`, `DistributionRun`): a buffering coordinator refined from what its calls ask for and
faulted exactly when they ask too much, a circuit breaker that trips exactly on its failure count, with its audit
conditions as run invariants, and a staged rename transaction with rollback, recovery of interrupted runs and an account
of the failures behind each ending.

`Basics`, `Text`, `Digraph` and `Ordering` hold shared values, text order, graphs, and lists up to order.

## How to read the model

- A hash, digest or derived id is modelled by the content it identifies, so equal hashes mean equal content.
- Times are integers in milliseconds. Clock readings, failures and the interleaving of processes are arbitrary unless a
  clause says otherwise.
- Imperative code is imperative here: loops with their seen-sets and work lists, classes updated in place, array-like
  flags. Each such method is proved against a predicate or function that does not share its bookkeeping.
- Where a promised property does not hold of the code, the code is kept, a lemma exhibits an input, and the exact
  condition is proved:
  - `TargetLock.LockNamesHolder` and `TargetLock.RestoringExactlyWhenUnreadable`, with the run
    `TargetLock.UnreadableMoveCanOverwriteALock`;
  - `Callback.BoundaryRefusesClaimed`, with `Callback.BoundaryAndProjectorCanDisagree`;
  - `Planner.OperatorsHoldExactlyWhenBound`, with `Planner.UnboundOperatorAttentionIsIgnored`;
  - `TaskLedgerLaws.ProgressReadsBack`, with `TaskLedgerLaws.CycleWithoutIdCanBreak`;
  - `TaskLedgerLaws.UnrevisedDependent`, with `TaskLedgerLaws.UnrevisedDependentCanBreak`;
  - `Capacity.AuditFindsNoContradiction`, with `Capacity.AuditMustNotLagExpiry` for every audit time it excludes;
  - `Satisfiability.FulfillableExactlyWhenFew`, with `Satisfiability.ValidYetNeverAccepted`.

## Model

| member | source | states |
|---|---|---|
| `Outbox.ReplayFenced` | packages/business-orchestrator/src/projector.js:3192-3700 | after any replay every effect's lease, generation and fencing history agree: a lease is held exactly while claimed or sending, and it carries the last token ever issued |
| `Outbox.MoveNeverReopens` | packages/business-orchestrator/src/projector.js:274-282 | no status reached once a send has begun leads back to pending or claimed, and no second send begins |
| `Outbox.MoveKeepsFenced` | packages/business-orchestrator/src/projector.js:3192-3244 | each accepted event keeps lease and history in step and only appends to the history |
| `Outbox.LeaseIsExclusive` | packages/business-orchestrator/src/projector.js:3245-3413 | until a lease expires only its holder's events and the cancellation of an unsent claim are accepted, and exactly when the holder may begin the send, renew and settle |
| `Outbox.ExpiredLeaseIsReleased` | packages/business-orchestrator/src/projector.js:3414-3547 | once a lease has expired, exactly a requeue or cancellation of the claim, or the expiry of the send, is accepted, and the lease is gone |
| `Outbox.UnleasedMoves` | packages/business-orchestrator/src/projector.js:3192-3244 | without a lease, exactly a claim of the next generation or a cancellation of a pending effect, or a reconciliation of an unknown delivery, is accepted |
| `Outbox.ApplyIsLocal` | packages/business-orchestrator/src/projector.js:3164-3190 | an event enqueues a new effect or moves a known one, and leaves all others alone |
| `Outbox.SendIsFinal` | packages/business-orchestrator/src/projector.js:3245-3382 | an effect whose send was replayed is known and past claiming in every later projection |
| `Outbox.SendIsUnique` | packages/business-orchestrator/src/projector.js:3245-3382 | a replayable journal begins the send of an effect under one token only |
| `Outbox.SendingLeaseWasSent` | packages/business-orchestrator/src/projector.js:3245-3413 | the token a sending effect holds is the token its send began under, through renewals |
| `Outbox.UsedTokenIsIssued` | packages/business-orchestrator/src/projector.js:3192-3446 | a token an accepted event issued or presented stays in the effect's fencing history, and a requeued one is never held again |
| `Boundary.CommitKeepsSound` | packages/event-store/src/journal.js:459-560 | a compare-and-swap commit at the current length keeps ids unique, revisions consecutive and the journal replayable |
| `Boundary.CallStepSound` | packages/business-orchestrator/src/command-boundary.js:1193-1408 | one step of any `execute` call appends at most one batch and returns only what a receipt stores |
| `Boundary.LookupIsExact` | packages/business-orchestrator/src/command-boundary.js:930-952 | a lookup finds a result exactly when it is stored for this call, conflicts exactly when the id is bound to other content of the namespace (for observations, of any), and otherwise finds nothing |
| `Boundary.CommitIsExact` | packages/event-store/src/journal.js:459-560 | the store commits exactly a new id at the current length, and when it answers idempotent, batch conflict and revision conflict |
| `Boundary.ReturnsExactlyTheReceipt` | packages/business-orchestrator/src/command-boundary.js:1193-1240 | reading the journal, at the start or to reconcile, a call can return exactly the result stored for it, and with one stored it does so or fails |
| `Boundary.FreshCallCommits` | packages/business-orchestrator/src/command-boundary.js:1240-1408 | a call whose id is free reaches the store, and its batch at the current length is committed, returned and the only receipt |
| `Boundary.OfferOutcomes` | packages/business-orchestrator/src/command-boundary.js:1370-1408 | an offered batch may lose the race, after which an observation looks for its receipt and other calls start over while attempts are left, or be decided without its answer arriving, after which the call looks for its receipt |
| `Boundary.OfferGoesNowhereElse` | packages/business-orchestrator/src/observation-boundary.js:2254-2294 | an offer has no other outcome, and one is returned only when the journal did not move and grew by it |
| `Boundary.ReconcileRetries` | packages/business-orchestrator/src/observation-boundary.js:2265-2294 | after a second look a call starts over exactly when it lost the race, found no receipt and has an attempt left |
| `Boundary.CallEnds` | packages/business-orchestrator/src/command-boundary.js:1193-1408 | every call ends: each step lowers the attempts left or the phase within the attempt |
| `Boundary.RunIsSafe` | packages/business-orchestrator/src/internal-action-boundary.js:992-1282 | any interleaving of calls that retry, crash or lose responses keeps the journal and all calls sound |
| `Boundary.JournalOnlyGrows` | packages/event-store/src/journal.js:459-560 | the journal of an earlier state is a prefix of the journal of a later one |
| `Boundary.ExactlyOnce` | packages/business-orchestrator/src/observation-boundary.js:2037-2294 | at most one batch per id, and every call that returned did so with the result stored in that id's receipt |
| `Boundary.RetryGetsTheReceipt` | packages/business-orchestrator/src/observation-boundary.js:2037-2294 | in every run, a result once recorded is what every later retry of that call returns, unless it fails without an answer |
| `Boundary.ReuseNeverSucceeds` | packages/business-orchestrator/src/command-boundary.js:930-952 | once an id is bound to a recorded batch, no call under that id with other content, principal or namespace returns |
| `Reactor.PlannedSendIsFirst` | packages/business-orchestrator/src/canonical-reactor.js:684-697 | a send planned on a claimed effect finds no send of that effect in the journal |
| `Reactor.ReturnedSendIsRecorded` | packages/business-orchestrator/src/internal-action-boundary.js:430-545 | a returned send action is a send event in the journal, under the caller's token |
| `Reactor.ReturnedReleaseIsFinal` | packages/business-orchestrator/src/internal-action-boundary.js:479-662 | a returned renewal presented an issued token, and the token a returned requeue released is never held again |
| `Reactor.StepKeepsOwnReactor` | packages/business-orchestrator/src/canonical-reactor.js:1836-1890 | planning, claim, requeue and send completion keep `freshClaims` and the phase consistent with the journal |
| `Reactor.EntryCouldSettle` | packages/business-orchestrator/src/canonical-reactor.js:1997-2081 | on a sending effect the lease condition for entering the provider holds exactly while the projector would accept the delivery under that token |
| `Reactor.EntryKeepsOthers` | packages/business-orchestrator/src/canonical-reactor.js:2030-2081 | when one reactor enters the provider, no other reactor can be on its way to enter the same effect |
| `Reactor.NextKeepsFleet` | packages/business-orchestrator/src/canonical-reactor.js:2218-2290 | every move of the fleet, crashes and foreign commits included, keeps the invariant |
| `Reactor.ProviderEnteredAtMostOnce` | packages/business-orchestrator/src/canonical-reactor.js:1997-2081 | in every run of any number of reactors the provider mutation of an effect is entered at most once, by the reactor its lease names, under the only token its send began with |
| `ReactorClaims.ReturnedClaimIsRecorded` | packages/business-orchestrator/src/internal-action-boundary.js:479-662 | a returned claim names the token of a claim in the journal, made for the owner and under the lease id asked for |
| `ReactorClaims.StepKeepsOwnClaims` | packages/business-orchestrator/src/canonical-reactor.js:1836-1890 | every step keeps a reactor's fresh claims among the claims the journal recorded for it |
| `ReactorClaims.FreshClaimWasIssued` | packages/business-orchestrator/src/canonical-reactor.js:1836-1890 | in every run a reactor's fresh claim is a token of the effect's fencing history, issued to that reactor and owner |
| `ReactorWitness.ProviderCanBeEntered` | packages/business-orchestrator/src/canonical-reactor.js:1997-2081 | there is a run in which the provider is entered, so the result above is not empty |
| `Callback.HistoryIsTheClaims` | packages/business-orchestrator/src/observation-boundary.js:867-959 | the fencing history the boundary reads is exactly the tokens committed claims issued |
| `Callback.FencedCallbackIsSorted` | packages/business-orchestrator/src/observation-boundary.js:1336-1390 | on a fenced effect the boundary's answer is decided by token, status and expiry alone, in every case |
| `Callback.BindChecksFencing` | packages/business-orchestrator/src/observation-boundary.js:867-959 | the boundary binds a callback exactly when generation, history, last lease id and lease of the effect agree |
| `Callback.WorkerCallbackIsSorted` | packages/business-orchestrator/src/observation-boundary.js:1562-1637 | on every replayed effect a worker callback is exactly one of live settlement, quarantine, send expiry or refusal; never-issued tokens are always refused and the not-current-lease refusal never fires |
| `Callback.StaleReasonIsExact` | packages/business-orchestrator/src/observation-boundary.js:1336-1390 | which stale reason a quarantined callback gets, as a function of history and status |
| `Callback.BoundaryAgreesWithProjector` | packages/business-orchestrator/src/observation-boundary.js:961-1012 | for every effect state, a callback is live exactly when the projector would accept its settlement and the effect is sending, and an expiry exactly when it would accept the send expiration |
| `Callback.BoundaryRefusesClaimed` | packages/business-orchestrator/src/observation-boundary.js:1336-1390 | the boundary and the projector disagree exactly on a not-sent settlement of a claimed effect under its held, unexpired token: the projector would accept it and the boundary refuses it as out of phase |
| `Callback.BoundaryAndProjectorCanDisagree` | packages/business-orchestrator/src/observation-boundary.js:1336-1390 | such an effect state exists |
| `Lifecycle.ChainTo` | packages/business-orchestrator/src/lifecycle.js:526-600 | predecessors lead from any member down to the root of its goal |
| `Lifecycle.CleanGoalIsChain` | packages/business-orchestrator/src/lifecycle.js:526-641 | without lineage violations every operation goal is one chain, generations 1..n, all before the last not sent |
| `Lifecycle.ChainsAreClean` | packages/business-orchestrator/src/lifecycle.js:526-641 | the converse: when every goal is a chain the lineage checks find nothing |
| `Lifecycle.LineageIsChains` | packages/business-orchestrator/src/lifecycle.js:526-641 | the lineage checks pass exactly when every goal is one linear chain |
| `Lifecycle.OneUnresolvedPerGoal` | packages/business-orchestrator/src/lifecycle.js:600-641 | two unresolved generations of one goal cannot coexist, so that check rejects nothing more |
| `Lifecycle.NoForks` | packages/business-orchestrator/src/lifecycle.js:560-600 | no two effects of a goal follow the same predecessor, so the fork check rejects nothing more |
| `LifecycleSnapshot.EntryCodes` | packages/business-orchestrator/src/lifecycle.js:268-348 | the checks on one effect alone report nothing exactly when the effect is clean |
| `LifecycleSnapshot.ScanEntries` | packages/business-orchestrator/src/lifecycle.js:434-475 | one pass collects the entry violations and groups the traceable effects by lane and by goal |
| `LifecycleSnapshot.IndexById` | packages/business-orchestrator/src/lifecycle.js:476-492 | the index by effect id, and duplicate ids |
| `LifecycleSnapshot.GenerationSearch.VisitGeneration` | packages/business-orchestrator/src/lifecycle.js:494-521 | the depth-first visit keeps its visiting path and visited set consistent and reports a real cycle |
| `LifecycleSnapshot.FindCycles` | packages/business-orchestrator/src/lifecycle.js:494-524 | the search reports a cycle exactly when the predecessor graph has one |
| `LifecycleSnapshot.CleanLineageIsAcyclic` | packages/business-orchestrator/src/lifecycle.js:494-524 | generations fall along predecessors, so the cycle search finds nothing the lineage checks accept |
| `LifecycleSnapshot.CheckGoal` | packages/business-orchestrator/src/lifecycle.js:526-641 | the per-goal pass reports nothing exactly when the goal's members satisfy the lineage rules |
| `LifecycleSnapshot.CheckGoals` | packages/business-orchestrator/src/lifecycle.js:526-641 | the same over all goals |
| `LifecycleSnapshot.CheckLanes` | packages/business-orchestrator/src/lifecycle.js:643-656 | several unresolved effects on a lane are reported exactly when there are |
| `LifecycleSnapshot.CheckRecovery` | packages/business-orchestrator/src/lifecycle.js:658-709 | recovery attention is reported exactly when a record is unbound or an ambiguous effect is uncovered |
| `LifecycleSnapshot.CheckOperator` | packages/business-orchestrator/src/lifecycle.js:711-748 | operator attention is reported exactly when a record is mismatched or a refused effect is uncovered |
| `LifecycleSnapshot.CheckLineage` | packages/business-orchestrator/src/lifecycle.js:476-656 | index, cycle search, goal and lane checks together decide lineage and lanes |
| `LifecycleSnapshot.BranchViolations` | packages/business-orchestrator/src/lifecycle.js:407-748 | the branch snapshot reports no violation exactly when the short declarative predicate holds, which mentions neither the cycle search, the fork check nor the multiple-unresolved check |
| `LifecycleSnapshot.WorkOrderHasNoViolation` | packages/business-orchestrator/src/lifecycle.js:897-986 | the same for the whole work order, with unbound effects and unbound recovery records |
| `Lifecycle.RetryClearMeansSettled` | packages/business-orchestrator/src/lifecycle.js:750-790 | retry clearance means the branch has nothing unresolved and no open recovery |
| `Retry.LatestCurrentStart` | packages/business-orchestrator/src/command-boundary.js:736-756 | the selected start effect is a candidate of the highest generation, and none is selected exactly when there is no candidate |
| `Retry.GenerationRetryBasis` | packages/business-orchestrator/src/command-boundary.js:758-832 | without a candidate there is no basis; otherwise a candidate of the highest generation decides, with exactly when it is the basis, when there is none, and when it is refused as contradictory, exhausted or off schedule |
| `Retry.DelayIsBackoff` | packages/business-orchestrator/src/settlement-policy.js:391-426 | the retry delay is the first backoff doubled with each generation up to the largest |
| `Retry.EligibleAfterBackoff` | packages/business-orchestrator/src/settlement-policy.js:428-480 | a retry is eligible at once when asked for explicitly or without a backoff, and otherwise after that backoff from the recorded delivery |
| `Retry.AdmittedIsLatestOfGoal` | packages/business-orchestrator/src/command-boundary.js:717-756 | every member of the admitted effect's goal is a candidate, so the admitted effect is the latest of its goal |
| `Retry.SuccessorKeepsLineage` | packages/business-orchestrator/src/lifecycle.js:526-641 | a successor to the latest, never sent generation keeps entries and lineage clean |
| `Retry.SuccessorKeepsAttention` | packages/business-orchestrator/src/lifecycle.js:658-748 | a new pending effect keeps the attention checks clean |
| `Retry.PendingStandsAlone` | packages/business-orchestrator/src/lifecycle.js:643-656 | on a branch clear for retry the new effect is the only unresolved one and its lane is clean |
| `Retry.OtherBranchUnchanged` | packages/business-orchestrator/src/lifecycle.js:407-439 | a branch the new effect does not belong to is judged as before |
| `Retry.AdmittedRetryStaysClean` | packages/business-orchestrator/src/command-boundary.js:1236-1259 | whenever a generation retry is admitted, enqueuing its successor keeps the whole work order violation-free and leaves exactly one unresolved effect on the branch |
| `Planner.AutomationMeans` | packages/business-orchestrator/src/lifecycle.js:853-895 | the automation state is runnable exactly when nothing in the work order is ambiguous, unbound, stale or awaiting an operator; cleanup may run exactly when it is due |
| `Planner.NoHoldMeansUnencumbered` | packages/business-orchestrator/src/lifecycle.js:750-790 | no cleanup and no operator hold is left exactly when the work order is unencumbered |
| `Planner.First` | packages/business-orchestrator/src/canonical-reactor.js:725-737 | the first element after sorting: nothing in the list is sooner |
| `Planner.Choose` | packages/business-orchestrator/src/canonical-reactor.js:639-738 | actions beat waits, the soonest wins, and an error is that of the first candidate visited that fails |
| `Planner.DerivePlan` | packages/business-orchestrator/src/canonical-reactor.js:631-738 | a missing requested effect is refused; otherwise the result is the chosen decision when no candidate fails, and the error of the first candidate visited that fails when one does; what each candidate's step and the choice mean is stated by the laws below |
| `Planner.ClaimExactlyWhenClear` | packages/business-orchestrator/src/canonical-reactor.js:674-682 | a claim is offered exactly for a pending current-attempt effect of a clean unfinished work order that is clear for forward work, or for a turn cancellation when cleanup is due |
| `Planner.PlannedClaimIsSafe` | packages/business-orchestrator/src/canonical-reactor.js:640-682 | the claim the planner returns satisfies that condition; turn-cancel cleanup is the sole exception to a clear work order |
| `Planner.OperatorsHoldExactlyWhenBound` | packages/business-orchestrator/src/projector.js:4886-4912 | for an offered forward claim, no operator record of the work order is open exactly when every open operator record names one of its branches |
| `Planner.UnboundOperatorAttentionIsIgnored` | packages/business-orchestrator/src/lifecycle.js:950-975 | a projection with an open operator record that names no branch, in which the planner nevertheless offers the claim of a pending effect |
| `Planner.PlanIsDetermined` | packages/business-orchestrator/src/canonical-reactor.js:725-738 | the decision does not depend on the order in which the outbox is listed |
| `PlannerLaws.FailureIsExact` | packages/business-orchestrator/src/canonical-reactor.js:631-670 | when the planner stops over an effect, and with which error |
| `PlannerLaws.WaitIsExact` | packages/business-orchestrator/src/canonical-reactor.js:640-673 | when it waits for a replay-only effect, a finished work order or a stale attempt, and when it has nothing to do |
| `PlannerLaws.PendingIsExact` | packages/business-orchestrator/src/canonical-reactor.js:674-683 | a pending effect of the current attempt is claimed exactly when forward work is clear or its cleanup is due, and waits for the lifecycle otherwise |
| `PlannerLaws.ActionsAreAcceptable` | packages/business-orchestrator/src/canonical-reactor.js:684-724 | requeue, send, expiry, lookup and probe are planned exactly when the projector would accept, at that time, the event each leads to: the send under the token this run claimed, the others under the token held |
| `PlannerLaws.ForeignClaimIsWaitedOut` | packages/business-orchestrator/src/canonical-reactor.js:699-703 | a live claim that is not this run's own is waited for, until its lease expires |
| `PlannerLaws.PlannedClaimIsAcceptable` | packages/business-orchestrator/src/canonical-reactor.js:674-682 | a planned claim would be accepted under any token of the next generation |
| `PlannerLaws.ReactorFollowsPlan` | packages/business-orchestrator/src/canonical-reactor.js:1836-1890 | a reactor can begin a send or a requeue exactly when it is idle and its planner says so, and a claim if its planner says so |
| `PlannerLaws.ActionOrder` | packages/business-orchestrator/src/canonical-reactor.js:66-73 | a send is chosen before a release of an effect, that before a claim, and a lookup last; the effect id decides among equals |
| `PlannerLaws.WaitOrder` | packages/business-orchestrator/src/canonical-reactor.js:732-738 | a wait is chosen only when no action is offered, the one that ends first, then by effect id |
| `PlanGraph.CycleSearch.Visit` | packages/business-orchestrator/src/contract.js:915-928 | the recursive visit keeps a path and a topological order of what it has visited, or returns a cycle |
| `PlanGraph.AssertAcyclic` | packages/business-orchestrator/src/contract.js:901-929 | passes exactly when all dependencies are known and the graph is acyclic, and then there is a topological order |
| `PlanGraph.Collect` | packages/business-orchestrator/src/contract.js:964-971 | the work list finds exactly the branches reachable from the integration branch |
| `PlanGraph.CheckTerminal` | packages/business-orchestrator/src/contract.js:952-962 | no other branch depends on the integration branch |
| `PlanGraph.CheckCoverage` | packages/business-orchestrator/src/contract.js:964-982 | the integration branch transitively collects every work branch |
| `PlanGraph.ValidateIntegration` | packages/business-orchestrator/src/contract.js:931-983 | passes exactly when the integration rules hold |
| `PlanGraph.ValidateGraph` | packages/business-orchestrator/src/contract.js:1032-1041 | accepts exactly the acceptable graphs, each with a topological order that ends in the integration branch when there is one |
| `PlanGraph.IntegrationLast` | packages/business-orchestrator/src/contract.js:931-983 | any topological order can be rearranged to end in the integration branch |
| `PlanCanonical.AllUnique` | packages/business-orchestrator/src/contract.js:567-607 | the seen-set passes find a repetition exactly when there is one |
| `PlanCanonical.Normalize` | packages/business-orchestrator/src/contract.js:985-1139 | accepts exactly the valid plans, field formats and limits included, whose supplied hash and id match, and returns the canonical content with its hash and id |
| `PlanCanonical.OrderDoesNotMatter` | packages/business-orchestrator/src/contract.js:985-1139 | plans that differ only in the order of branches, dependencies, criteria, requirements, providers or observations are accepted alike and get the same content, hash and snapshot id |
| `PlanCanonical.CanonicalKeepsShape` | packages/business-orchestrator/src/contract.js:1078-1107 | normalization loses nothing but order |
| `PlanCanonical.SameHashExactlyWhenSamePlan` | packages/business-orchestrator/src/contract.js:1108-1109 | two accepted plans get the same hash exactly when they are equal up to order |
| `PlanCanonical.NormalizationIsIdempotent` | packages/business-orchestrator/src/contract.js:1108-1139 | a normalized plan is accepted with its own hash and id and normalizes to itself |
| `PlanCanonical.AcceptableForgetsOrder` | packages/business-orchestrator/src/contract.js:901-983 | graph acceptance does not depend on the order of branches |
| `PlanCanonical.BranchesForgetOrder` | packages/business-orchestrator/src/contract.js:1078-1107 | the canonical branch list does not depend on the order of branches or dependencies |
| `PlanCanonical.BranchesStayValid` | packages/business-orchestrator/src/contract.js:854-899 | branch validity does not depend on order |
| `PlanCanonical.CriteriaForgetOrder` | packages/business-orchestrator/src/contract.js:609-712 | criteria validity and the canonical criteria list do not depend on order |
| `Acceptance.ValidateEvidence` | packages/business-orchestrator/src/acceptance.js:178-195 | valid exactly for 1 to 128 distinct portable references, and which references are collected |
| `Acceptance.ValidateArtifacts` | packages/business-orchestrator/src/acceptance.js:197-213 | valid exactly for 1 to 128 content references with distinct ids |
| `Acceptance.ValidateEmpty` | packages/business-orchestrator/src/acceptance.js:215-222 | reports nothing exactly for the empty list |
| `Acceptance.ValidateIdentity` | packages/business-orchestrator/src/acceptance.js:224-258 | reports nothing exactly when the snapshot names this plan and a work order |
| `Acceptance.ValidateBranches` | packages/business-orchestrator/src/acceptance.js:260-305 | reports nothing exactly when there is one good result per planned branch; otherwise some reason |
| `Acceptance.ValidateCriteria` | packages/business-orchestrator/src/acceptance.js:307-350 | reports nothing exactly when there is one passed result per planned criterion |
| `Acceptance.ValidateReviews` | packages/business-orchestrator/src/acceptance.js:352-436 | reports nothing exactly when enough independent accepted reviews exist and none repeats |
| `Acceptance.ScanChecks` | packages/business-orchestrator/src/acceptance.js:446-577 | the loop over checks reports nothing exactly when every check is good and nothing is repeated, and its tallies then describe the checks |
| `Acceptance.CountsAreRedundant` | packages/business-orchestrator/src/acceptance.js:588-595 | with a valid plan the per-kind counts reject nothing the requirements accept |
| `Acceptance.ValidateChecks` | packages/business-orchestrator/src/acceptance.js:446-610 | reports nothing exactly when checks are good, unrepeated, cover every requirement and match the criterion evidence |
| `Acceptance.Evaluate` | packages/business-orchestrator/src/acceptance.js:623-673 | accepted exactly when the declarative predicate holds, exactly when no reason was found; the evidence is then what the snapshot cites |
| `AcceptanceLaws.ChecksAreTheRequirements` | packages/business-orchestrator/src/acceptance.js:446-610 | on acceptance the checks and the plan's requirements are in bijection |
| `AcceptanceLaws.TooManyRequirementsNeverAccepted` | packages/business-orchestrator/src/acceptance.js:447-450 | no snapshot is ever accepted for a plan with more than 128 requirements |
| `AcceptanceLaws.ChecksAreIndependent` | packages/business-orchestrator/src/acceptance.js:498-570 | no two checks of an accepted snapshot share a verifier or a piece of evidence |
| `AcceptanceLaws.OrderNeverDecides` | packages/business-orchestrator/src/acceptance.js:640-673 | the verdict depends on the order of neither the plan's nor the snapshot's lists |
| `Satisfiability.SnapshotIsGood` | packages/business-orchestrator/src/acceptance.js:224-610 | for a valid plan with at most 128 requirements and a name prefix no assignee uses, the snapshot built from the plan passes every check of the evaluator |
| `Satisfiability.FulfillableExactlyWhenFew` | packages/business-orchestrator/src/acceptance.js:446-610 | for every plan normalization accepts, some snapshot is accepted exactly when the plan has at most 128 requirements, input size limits aside |
| `Satisfiability.ValidYetNeverAccepted` | packages/business-orchestrator/src/contract.js:609-712 | normalization accepts a plan of 16 requirements on each of n criteria for every n up to 64, and such a plan can be fulfilled exactly when n is at most 8 |
| `Coordinator.ProjectionEventCoordinator.constructor` | apps/orquesta-desktop-next/runtime-node/projection-event-coordinator.ts:266-277 | a new coordinator is unbound, empty and not faulted |
| `Coordinator.ProjectionEventCoordinator.Append` | apps/orquesta-desktop-next/runtime-node/projection-event-coordinator.ts:622-654 | a batch is sent, buffered or refused with a fault, as the step function says, whose faults `CoordinatorFaults.FaultIsExact` characterises |
| `Coordinator.ProjectionEventCoordinator.Flush` | apps/orquesta-desktop-next/runtime-node/projection-event-coordinator.ts:319-329 | every buffered batch leaves in order under the new binding |
| `Coordinator.ProjectionEventCoordinator.BindTo` | apps/orquesta-desktop-next/runtime-node/projection-event-coordinator.ts:279-330 | the state after a bind, and exactly which binds are refused, blank names and unsafe numbers included |
| `Coordinator.ProjectionEventCoordinator.SuspendFor` | apps/orquesta-desktop-next/runtime-node/projection-event-coordinator.ts:332-344 | suspends exactly under the current authority |
| `Coordinator.ProjectionEventCoordinator.Release` | apps/orquesta-desktop-next/runtime-node/projection-event-coordinator.ts:346-353 | unbinding clears everything but what was already notified |
| `Coordinator.ProjectionEventCoordinator.ObserveBatch` | apps/orquesta-desktop-next/runtime-node/projection-event-coordinator.ts:371-373 | an observed batch is ignored while unbound or faulted and appended otherwise |
| `Coordinator.ProjectionEventCoordinator.ObserveFailure` | apps/orquesta-desktop-next/runtime-node/projection-event-coordinator.ts:355-369 | a throwing handler latches a fault exactly when bound and not yet faulted |
| `Coordinator.ProjectionEventCoordinator.Fail` | apps/orquesta-desktop-next/runtime-node/projection-event-coordinator.ts:656-667 | the fault is latched and notified once, and nothing is ingested |
| `Coordinator.StepKeepsFaithful` | apps/orquesta-desktop-next/runtime-node/projection-event-coordinator.ts:279-353 | each call keeps: sent batches followed by buffered ones are the batches offered to the bound stream |
| `Coordinator.RunIsFaithful` | apps/orquesta-desktop-next/runtime-node/projection-event-coordinator.ts:279-353 | in every run, what was sent since the bind that started the current stream, then what is buffered, are exactly the batches offered to it, in order, once each and whole (a prefix once faulted); the counters equal the buffer's sums and stay within both limits |
| `Coordinator.LiveStreamIsDelivered` | apps/orquesta-desktop-next/runtime-node/projection-event-coordinator.ts:309-331 | bound, not suspended and not faulted: what was sent since the bind that started the stream is everything offered to it |
| `CoordinatorFaults.FaultIsExact` | apps/orquesta-desktop-next/runtime-node/projection-event-coordinator.ts:622-667 | in every run the coordinator is at fault exactly when, since the current stream was bound, a handler threw or a batch observed under suspension was too much, in events or UTF-8 bytes, beside those observed since that suspension began; otherwise it is bound and suspended as the calls ask and has buffered just those batches |
| `CoordinatorFaults.FaultLasts` | apps/orquesta-desktop-next/runtime-node/projection-event-coordinator.ts:289-318 | a fault lasts, and nothing else changes, until another stream is bound or the stream is given up |
| `CoordinatorFaults.FaultIsToldOnce` | apps/orquesta-desktop-next/runtime-node/projection-event-coordinator.ts:656-667 | a bound stream has been told of its fault exactly once if it has one, under its own project, and never otherwise |
| `CoordinatorFaults.BindNeedsExactAuthority` | apps/orquesta-desktop-next/runtime-node/projection-event-coordinator.ts:280-288 | a bind takes hold exactly when all four names are more than whitespace and both counts are non-negative safe integers |
| `Coordinator.IngestOnlyWhileLive` | apps/orquesta-desktop-next/runtime-node/projection-event-coordinator.ts:622-654 | no ingest frame leaves while unbound, suspended or faulted, nor under another binding |
| `TargetLock.RunIsSafe` | orquesta/scripts/json-state.js:278-434 | in every interleaving with failures and crashes at most one process is inside the operation and the content is the committed updaters applied one after the other |
| `TargetLock.CourseIsExact` | orquesta/scripts/json-state.js:278-434 | where a process can go next, exactly: by its place in the program and the files it finds, failures and crashes included |
| `TargetLock.FreeLockCanBeUsed` | orquesta/scripts/json-state.js:278-434 | from every reachable state with lock and transition free, a newcomer can take the lock, commit its update to the content it finds and leave both free |
| `TargetLock.StepKeepsExclusion` | orquesta/scripts/json-state.js:306-340 | only a process that finds no lock file becomes locked, so at most one is |
| `TargetLock.StepKeepsSerial` | orquesta/scripts/json-state.js:656-662 | a committed update applies to the content all earlier updates left |
| `TargetLock.TransitionRemovedByPublisher` | orquesta/scripts/json-state.js:364-416 | a transition file is taken away only by the process that published it |
| `TargetLock.LockNamesHolder` | orquesta/scripts/json-state.js:351-434 | in every run the lock file names the process that holds the lock in every state exactly when no moved file is put back while some process holds the lock |
| `TargetLock.RestoringExactlyWhenUnreadable` | orquesta/scripts/json-state.js:364-405 | in every run the restore branch is reached exactly when some process met a transient read error on the file it had moved |
| `TargetLock.OwnLockIsFound` | orquesta/scripts/json-state.js:351-362 | while every move is readable the lock is named and a release finds its own lock |
| `TargetLock.RestoreIsHarmlessWhenFree` | orquesta/scripts/json-state.js:382-405 | putting a moved file back keeps the lock named exactly when no process holds the lock, whether or not a lock file is there |
| `TargetLock.UnreadableMoveCanOverwriteALock` | orquesta/scripts/json-state.js:214-230 | a transient read error on the moved file lets the restore branch overwrite another process's lock |
| `TaskLedger.CycleReceipts` | orquesta/scripts/task-controller.js:740-770 | one cycle's loop accepts exactly distinct digests, strictly increasing times and consistent metadata |
| `TaskLedger.ProgressPacketReceipts` | orquesta/scripts/task-controller.js:729-779 | accepts exactly the readable tasks and returns all receipts in order |
| `TaskLedger.Dependent` | orquesta/scripts/task-controller.js:901-911 | only a task blocked by one of its dependencies is touched, and only its block and its time, which never goes back |
| `TaskLedger.StepChanges` | orquesta/scripts/task-controller.js:1022-1116 | how one command changes each task: not at all, by progress, by acceptance or by unblocking |
| `TaskLedger.TaskController.RecordProgress` | orquesta/scripts/task-controller.js:1069-1124 | the ledger after a progress command, refusals included |
| `TaskLedger.TaskController.AcceptDirect` | orquesta/scripts/task-controller.js:1000-1067 | the ledger after an acceptance command, and exactly which tasks it reports as unblocked: none when the acceptance is a replay, and never the accepted one |
| `TaskLedger.TaskController.MapTasks` | orquesta/scripts/task-controller.js:1051-1056 | the accepted task replaced and every dependent updated in one pass |
| `TaskLedgerLaws.ProgressReadsBack` | orquesta/scripts/task-controller.js:757-768 | a progressed task reads back exactly when the continued cycle's receipts carry the packet's cycle id |
| `TaskLedgerLaws.RecordedExactlyWhen` | orquesta/scripts/task-controller.js:1069-1116 | on a good task a new packet is recorded exactly when the task is open and unblocked, the packet is the owner's, well formed and newer, and it goes on with the last cycle it identifies or starts the next |
| `TaskLedgerLaws.ProgressGoesOn` | orquesta/scripts/task-controller.js:825-868 | a cycle recorded in progress can be recorded again by a packet that repeats its id, kind and start |
| `TaskLedgerLaws.ProgressRefusals` | orquesta/scripts/task-controller.js:1069-1105 | a recorded packet is answered again without a change; exactly malformed packets are invalid, and which error a closed and a changed task get |
| `TaskLedgerLaws.CycleRefusals` | orquesta/scripts/task-controller.js:798-822 | for a packet written for an open task as it stands, exactly when each refusal is given: cycle out of sequence, cycle not open, identity changed, revision not advanced, start before the task |
| `TaskLedgerLaws.AcceptanceRefusals` | orquesta/scripts/task-controller.js:1029-1050 | an accepted task answers the packet that accepted it and refuses every other, and why an open task refuses |
| `TaskLedgerLaws.GoodTaskMeans` | orquesta/scripts/task-controller.js:209-256 | what the numbers, times, owner and ids of a good task's cycles and receipts are |
| `TaskLedgerLaws.ProgressKeepsOk` | orquesta/scripts/task-controller.js:798-868 | recording progress keeps numbering, the only-last-in-progress rule, increasing times and distinct digests |
| `TaskLedgerLaws.RunStaysReadable` | orquesta/scripts/task-controller.js:209-270 | from a good ledger every run keeps every task valid and its receipts readable |
| `TaskLedgerLaws.CycleWithoutIdCanBreak` | orquesta/scripts/task-controller.js:757-762 | a cycle with receipts but no cycle id can be made unreadable by a packet the controller accepts |
| `TaskLedgerLaws.UnrevisedDependent` | orquesta/scripts/task-controller.js:115-117 | every command leaves a canonical task canonical, except exactly an acceptance that unblocks a task without a revision time before that task was created |
| `TaskLedgerLaws.UnrevisedDependentCanBreak` | orquesta/scripts/task-controller.js:901-911 | a ledger of canonical tasks and an acceptance the controller performs that leaves a dependent the controller will refuse |
| `TaskLedgerLaws.AcceptanceIsFinal` | orquesta/scripts/task-controller.js:1029-1040 | acceptance is never undone and keeps the packet that decided it |
| `TaskLedgerLaws.AcceptsOnlyAfterDependencies` | orquesta/scripts/task-controller.js:1045-1049 | a task is accepted only when all its dependencies already are |
| `TaskLedgerLaws.RunKeepsClosed` | orquesta/scripts/task-controller.js:1045-1057 | the accepted tasks stay closed under dependencies in every run |
| `TaskLedgerLaws.NoNewAcceptanceOnCycle` | orquesta/scripts/task-controller.js:1045-1057 | a task on a dependency cycle is accepted after a run exactly when it was before |
| `TaskLedgerLaws.DependentOnCycleNeedsIt` | orquesta/scripts/task-controller.js:1045-1057 | a task that depends on a cycle is accepted only if that cycle was accepted before the run |
| `TaskLedgerLaws.AcceptedExactlyWhenDependenciesAre` | orquesta/scripts/task-controller.js:1022-1067 | a packet accepts its task exactly when it suits that task and all dependencies of that task are accepted, on a dependency cycle or not |
| `TaskLedgerLaws.AcceptedCycleLetsDependentsThrough` | orquesta/scripts/task-controller.js:1045-1057 | a ledger in which a dependent of an accepted cycle is accepted |
| `ProgressArchive.AppendLine` | orquesta/scripts/json-state.js:664-687 | appends exactly when no line has the event id, and reports a collision only for a different line of the same id |
| `ProgressArchive.ReceiptsGrow` | orquesta/scripts/task-controller.js:798-868 | a ledger command only adds receipts at the end, and only the recorded packet's |
| `ProgressArchive.CommandsExclude` | orquesta/scripts/task-controller.js:1069-1124 | while a packet is being recorded no other command begins and nothing else changes the ledger, which is written last |
| `ProgressArchive.RecordingTakesEffect` | orquesta/scripts/task-controller.js:1091-1116 | whatever else went on, the write of the ledger does what the recorded packet asks for |
| `ProgressArchive.IdleLedgerTakesCommands` | orquesta/scripts/task-controller.js:1000-1090 | with nothing being recorded, a recording begins exactly on an acceptable packet, and an acceptance is applied |
| `ProgressArchive.ProjectionNeverCollides` | orquesta/scripts/task-controller.js:940-957 | projecting a receipt never raises an event-id collision |
| `ProgressArchive.MoveKeepsDurable` | orquesta/scripts/task-controller.js:1091-1116 | every write, crash and projection step keeps receipts archived and log lines backed |
| `ProgressArchive.RunStaysDurable` | orquesta/scripts/task-controller.js:705-727 | however commands, crashes and projections interleave, every receipt has its packet in the archive and every log line tells of a receipt, at most once each |
| `ProgressArchive.CurrentProjectionIsComplete` | orquesta/scripts/task-controller.js:973-998 | a finished projection of the current task leaves exactly one line per receipt |
| `Capacity.EnsureRecord` | orquesta/scripts/capacity-gate.js:94-124 | the record of the scope, added only when there is none |
| `Capacity.EnsureDispatch` | orquesta/scripts/capacity-gate.js:126-150 | the dispatch of the event, added only when there is none |
| `Capacity.CountCorrelated` | orquesta/scripts/capacity-gate.js:205-213 | the failures of the same target and fingerprint inside the correlation window |
| `Capacity.ApplyEvent` | orquesta/scripts/capacity-gate.js:172-334 | one record, at most one dispatch and at most one piece of evidence change, as the update function says, which `CapacityLaws` characterises |
| `Capacity.Expire` | orquesta/scripts/capacity-gate.js:336-360 | every record in turn is expired, as specified |
| `Capacity.ExpiryComposes` | orquesta/scripts/capacity-gate.js:336-360 | expiring at t1 and then at t2 equals expiring at t2 |
| `Capacity.ExpiryKeepsRecordOk` | orquesta/scripts/capacity-gate.js:339-356 | expiry keeps records sound and leaves neither stale availability nor an elapsed cooldown |
| `Capacity.RunIsSound` | orquesta/scripts/capacity-gate.js:172-360 | in every run from the empty ledger, with event times in any order, records are sound, scope keys unique and evidence numbered without gaps, as of any time no expiry was ahead of |
| `Capacity.AuditFindsNoContradiction` | orquesta/scripts/control-audit.js:360-388 | a misclassified ambiguity is unreachable and a circuit is closed exactly when its record is available, whatever the times; confirmed usage outside its cooldown is never found by an audit whose clock is not behind an expiry's |
| `Capacity.AuditMustNotLagExpiry` | orquesta/scripts/control-audit.js:375-388 | for every audit time behind an expiry's the second condition does occur, in a run whose own times never go back |
| `Capacity.IdsAndScopesAreUnique` | orquesta/scripts/capacity-gate.js:152-170 | evidence ids and scope keys stay unique in every run, whatever the times |
| `CapacityLaws.RecordsAreLocal` | orquesta/scripts/capacity-gate.js:94-124 | an event touches the record of its own scope only, adding it when it is missing |
| `CapacityLaws.DispatchesAreLocal` | orquesta/scripts/capacity-gate.js:126-150 | and no dispatch but its own |
| `CapacityLaws.OwnDispatchRecords` | orquesta/scripts/capacity-gate.js:182-334 | what the event's dispatch records: its state, turn start and error fingerprint, and nothing else |
| `CapacityLaws.TripsExactly` | orquesta/scripts/capacity-gate.js:198-254 | a pre-start error opens the circuit, one generation on, exactly when the ledger then holds at least the retry limit of failures of the same target and fingerprint inside the window, counted as a set; otherwise the record is suspected and the circuit half open |
| `CapacityLaws.EventEffects` | orquesta/scripts/capacity-gate.js:182-334 | what every other event does to state and circuit |
| `CapacityLaws.ProgressProves` | orquesta/scripts/capacity-gate.js:289-320 | progress proves capacity exactly for a dispatch whose turn has started or on a closed circuit |
| `CapacityLaws.EvidenceIsExact` | orquesta/scripts/capacity-gate.js:152-170 | evidence is added exactly for a failure, a usage limit and a proof, repeats the record and is cited by it |
| `CapacityLaws.ExpiryIsExact` | orquesta/scripts/capacity-gate.js:336-360 | what an elapsed cooldown and an expired record become, and that nothing else changes |
| `CapacityLaws.OpenSinceTrip` | orquesta/scripts/capacity-gate.js:172-360 | in every run an open circuit was opened by a usage limit or by failures that reached the limit, and has been open ever since |
| `Distribution.Disk.Rename` | scripts/sync-orquesta-skill.js:247-254 | an atomic rename to a free path, or no change |
| `Distribution.Disk.Remove` | scripts/sync-orquesta-skill.js:127-136 | removal file by file; a failure leaves part of that tree and nothing else changes |
| `Distribution.Disk.CopyTo` | scripts/sync-orquesta-skill.js:164-187 | staging changes only the stage, whole or in part |
| `Distribution.RecoverBackup` | scripts/sync-orquesta-skill.js:285-297 | a leftover backup is restored when the target is gone, removed only when the target holds the complete snapshot, and otherwise the run stops with both copies intact |
| `Distribution.RecoverTarget` | scripts/sync-orquesta-skill.js:280-302 | after recovery no artifact is left and the target is what it was, or the backup that was restored |
| `Distribution.RecoverAll` | scripts/sync-orquesta-skill.js:280-303 | the same for all targets, nothing else touched; ambiguity only when some target is ambiguous, and never past a contested one; no state on the way has lost a tree, and a step discards one only while the complete snapshot is at its target |
| `DistributionRun.StageAll` | scripts/sync-orquesta-skill.js:305-314 | staging leaves every target as it was; it succeeds, with every stage holding the verified snapshot, unless a step or comparison fails or the snapshot may not be distributed |
| `DistributionRun.PromoteOne` | scripts/sync-orquesta-skill.js:315-325 | old target to backup, stage to target, then the comparison; the flags tell exactly how far it got, and it fails exactly when one of these did |
| `DistributionRun.PromoteAll` | scripts/sync-orquesta-skill.js:315-328 | promotion in order, with a comparison per target and one of the source; success means every target is promoted, and failure that one step or comparison failed |
| `DistributionRun.Rollback` | scripts/sync-orquesta-skill.js:340-347 | rollback in reverse order restores exactly the disk recovery left, from any failed step, unless a step of its own fails; even then nothing is lost |
| `DistributionRun.Cleanup` | scripts/sync-orquesta-skill.js:348-350 | backups are removed only while every target holds the snapshot, all of them unless a removal fails |
| `DistributionRun.SyncTargets` | scripts/sync-orquesta-skill.js:247-355 | a run without failure, ambiguous target or undistributable snapshot is done, and which failures each other ending takes; done means every target is the snapshot, compared, and no artifact is left; rolled back means the disk is exactly what recovery left; no state on the way, a failed rollback included, has lost a tree; a step discards an old tree only while the complete snapshot is at its target |
| `DistributionRun.CutOff` | scripts/sync-orquesta-skill.js:247-355 | one run cut off in any of its states leaves every old tree, or the complete snapshot, in place |
| `DistributionRun.CrashAndRerun` | scripts/sync-orquesta-skill.js:247-355 | after any number of runs, each started from a state the one before was cut off in, every tree there at first, or the complete snapshot of one of the runs, is still at its target or in a backup |

## Left out

- Authentication, authorization, resolver calls, timeouts and abort signals: a boundary call may fail at any step instead.
- Unknown or missing fields, and the limits on the bytes, values and depth of a whole plan or acceptance input.
- Satisfiability.FulfillableExactlyWhenFew: a plan so large that no snapshot fits beside it within 262,144 bytes and 8,192 values is not told apart; the plans of `Satisfiability.ValidYetNeverAccepted` are far below both limits.
- Whitespace around plan texts and references, which normalization trims: they are taken as trimmed.
- TaskLedger.TaskController.RecordProgress: a stored task with misnumbered cycles gets the same refusal as any other unsupported task.
- Field formats of task packets: each is settled by one branch.
- The projector's eligibility checks on worker actions (packages/business-orchestrator/src/projector.js:3089-3162): they can only refuse more events, so every result over accepted sequences stands.
- Provider-entry windows and send-authorization proofs: entry is allowed whenever the projection shows the sending lease unexpired, which is weaker than the code asks.
- Concurrent `executeOnce` calls on one reactor, and a run id shared by two live reactors.
- Text outside the basic multilingual plane, which the source orders by surrogate code unit and this model by code point; references and hashes are ASCII.
- Work orders of engine contract version 1 and other versions: replay-only paths of the lifecycle and the planner.
- Settlement policy tables and the safe-integer range of a retry's eligible time: the policy record and times are data.
- Planner.DerivePlan: the order in which candidates are visited, a locale comparison of work order, branch, attempt, generation and id, is a parameter; decisions compare effect ids character by character, which for the lower-case hexadecimal ids agrees with the locale comparison.
- PlanCanonical.Normalize: the paths and messages of refusals and which of several is reported, and the separate per-field reference checks, which the plan-wide reference check implies.
- Retry.GenerationRetryBasis: branch-attempt retries and the predecessor facts of cancel and user-input effects.
- Coordinator flushes that are not drained before the next call, and envelope construction that throws.
- Coordinator.ProjectionEventCoordinator.constructor: limits outside the safe positive range throw in the source and are a precondition here.
- Stale-lock timeouts, retry delays, fsync, parent-directory binding and symbolic links of the file lock; its liveness.
- Manual removal of a stale lock.
- Criterion, review and evidence checks of acceptance packets, and the current-orchestra text projection of the task controller.
- ProgressArchive.AppendLine: lines of other event types, which carry other ids.
- Capacity gate decisions, fallback selection and orchestra mode: flat conditions on one record.
- The audit condition on correlated failures without an open circuit, which is not an invariant: an accepted dispatch or a start timeout half-opens the circuit without resetting the counter.
- The removal of the temporary source snapshot and the distribution process lock.
- Release attestation, launching, placement, migration planning, encoding checks, user interface and build scripts.
