/**
 The effect lifecycle of one branch: how effects are grouped into lanes and operation goals, what makes
 a branch snapshot free of violations, and what that means for the retry lineage of each goal.
 A hash is modelled by the record it digests, so two goals are equal exactly when their fields are.
 */
module Lifecycle {
  import opened Basics
  import O = Outbox

  datatype Kind = ThreadCreate | TurnStart | UserInputSubmit | TurnCancel | UnsupportedKind(name: string)

  datatype Status =
    | Pending | Claimed | Sending | DeliveryUnknown | Delivered | NotSent | Cancelled
    | UnsupportedStatus(name: string)

  datatype Stage = Stage(predecessor: Option<string>, deliveryHash: Option<string>, target: Option<string>)

  /** The fields each effect kind contributes to its operation scope hash. */
  datatype Scope =
    | ThreadCreateScope(provider: string, packetRef: string, packetHash: string)
    | TurnStartScope(provider: string, packetRef: string, packetHash: string, stage: Stage)
    | TurnCancelScope(provider: string, stage: Stage)
    | UserInputScope(provider: string, stage: Stage, request: string, response: string)

  datatype ScopeHash = Digest(scope: Scope) | NotAHash(text: string)

  /** `generation_predecessor_effect_id`: null, an id, or not there at all. */
  datatype Predecessor = NoPredecessor | After(id: string) | Unset

  datatype Classification = ClassifiedAccepted | ClassifiedNotSent | ClassifiedUnknown
  datatype Disposition = Terminal | RetryCandidate | OperatorAttention | ReconciliationRequired

  /** The shared settlement policy stored with a settled effect; a retry candidate may retry its generation. */
  datatype SettlementPolicy = SettlementPolicy(
    kind: Kind, classification: Classification, disposition: Disposition, explicitRetry: bool)

  datatype Delivery = Delivery(classification: Classification, recordedAt: Time)

  datatype Effect = Effect(
    version: int,
    id: string,
    workOrder: string,
    branch: string,
    attempt: int,
    dispatch: string,
    kind: Kind,
    scopeHash: ScopeHash,
    generation: Option<int>,     // None: not a safe integer
    predecessor: Predecessor,
    provider: string,
    packetRef: string,
    packetHash: string,
    stage: Stage,
    fieldsPresent: bool,         // every identity field is there
    status: Status,
    policy: Option<SettlementPolicy>,
    delivery: Option<Delivery>,
    lease: Option<O.Lease>)

  type OutboxMap = map<string, Effect>

  datatype BranchState = DispatchPending | Running | WaitingForUser | Retryable | Failed | Cancelling | OtherState
  datatype Branch = Branch(ref: string, attempt: int, dispatch: string, provider: string, state: BranchState)

  datatype AttentionKind =
    | DeliveryUnknownAttention | TimeoutAttention | CancelAttention | PresendFailureAttention | OtherAttention
  datatype Attention = Attention(id: string, open: bool, branch: Option<string>, kind: AttentionKind,
                                 effect: Option<string>)

  datatype WorkOrderStatus =
    | Starting | Active | Paused | AwaitingAcceptance | CancellingWork | Accepted | FailedWork | CancelledWork
  datatype WorkOrder = WorkOrder(
    id: string,
    status: WorkOrderStatus,
    branches: map<string, Branch>,
    attention: map<string, Attention>)

  // ---------------------------------------------------------------- classification of one effect

  predicate Unresolved(s: Status) {
    s == Pending || s == Claimed || s == Sending || s == DeliveryUnknown
  }

  predicate MayHaveCrossed(s: Status) {
    s == Sending || s == DeliveryUnknown || s == Delivered
  }

  predicate NeedsOperator(e: Effect) {
    e.status == NotSent && e.policy.Some? && e.policy.value.disposition == OperatorAttention
  }

  datatype AttemptScope = Unbound | Current | Prior | Future

  function AttemptScopeOf(e: Effect, b: Branch): AttemptScope {
    if e.branch != b.ref then Unbound
    else if e.attempt == b.attempt && e.dispatch == b.dispatch then Current
    else if e.attempt < b.attempt || (e.attempt == b.attempt && e.dispatch != b.dispatch) then Prior
    else Future
  }

  /** One mutating provider kind of one branch attempt. */
  datatype Lane = Lane(workOrder: string, branch: string, attempt: int, dispatch: string, kind: Kind)
  datatype Goal = Goal(lane: Lane, scope: ScopeHash)

  function LaneOf(e: Effect): Lane {
    Lane(e.workOrder, e.branch, e.attempt, e.dispatch, e.kind)
  }

  function GoalOf(e: Effect): Goal {
    Goal(LaneOf(e), e.scopeHash)
  }

  /** The generation number; 0 stands for a value that is no safe integer. */
  function Generation(e: Effect): int {
    if e.generation.Some? then e.generation.value else 0
  }

  /** The effect carries enough to take part in the lineage checks. */
  predicate Traceable(e: Effect) {
    && e.version == 2
    && !e.kind.UnsupportedKind?
    && !e.status.UnsupportedStatus?
    && e.scopeHash.Digest?
    && e.generation.Some? && 1 <= e.generation.value <= MAX_SAFE_INTEGER
  }

  /** The checks on an effect alone. */
  predicate EntryClean(key: string, e: Effect, b: Branch) {
    && Traceable(e)
    && e.id == key
    && e.fieldsPresent && !e.predecessor.Unset?
    && AttemptScopeOf(e, b) != Future
  }

  // ---------------------------------------------------------------- a branch without violations

  /** The effects of a branch, by outbox key. */
  predicate InBranch(wo: WorkOrder, b: Branch, outbox: OutboxMap, k: string) {
    k in outbox && outbox[k].workOrder == wo.id && outbox[k].branch == b.ref
  }

  predicate EntriesClean(wo: WorkOrder, b: Branch, outbox: OutboxMap) {
    forall k :: k in outbox && InBranch(wo, b, outbox, k) ==> EntryClean(k, outbox[k], b)
  }

  /** A root has no predecessor; a later generation follows one of its own goal that was never sent. */
  predicate FollowsPredecessor(wo: WorkOrder, b: Branch, outbox: OutboxMap, e: Effect) {
    if Generation(e) == 1 then e.predecessor == NoPredecessor
    else
      && e.predecessor.After?
      && InBranch(wo, b, outbox, e.predecessor.id)
      && var p := outbox[e.predecessor.id];
         && GoalOf(p) == GoalOf(e)
         && Generation(p) == Generation(e) - 1
         && p.status == NotSent
  }

  predicate LineageClean(wo: WorkOrder, b: Branch, outbox: OutboxMap) {
    && (forall k :: k in outbox && InBranch(wo, b, outbox, k) ==> FollowsPredecessor(wo, b, outbox, outbox[k]))
    && (forall k, l :: k in outbox && l in outbox && InBranch(wo, b, outbox, k) && InBranch(wo, b, outbox, l) && k != l
                       && GoalOf(outbox[k]) == GoalOf(outbox[l]) ==>
                       Generation(outbox[k]) != Generation(outbox[l]))
  }

  predicate LanesClean(wo: WorkOrder, b: Branch, outbox: OutboxMap) {
    forall k, l :: k in outbox && l in outbox && InBranch(wo, b, outbox, k) && InBranch(wo, b, outbox, l) && k != l
                   && LaneOf(outbox[k]) == LaneOf(outbox[l]) ==>
                   !(Unresolved(outbox[k].status) && Unresolved(outbox[l].status))
  }

  predicate IsRecovery(k: AttentionKind) {
    k == DeliveryUnknownAttention || k == TimeoutAttention || k == CancelAttention
  }

  predicate OpenRecovery(wo: WorkOrder, b: Branch, a: string) {
    a in wo.attention && wo.attention[a].open && wo.attention[a].branch == Some(b.ref)
        && IsRecovery(wo.attention[a].kind)
  }

  predicate OpenOperator(wo: WorkOrder, b: Branch, a: string) {
    && a in wo.attention && wo.attention[a].open && wo.attention[a].branch == Some(b.ref)
    && wo.attention[a].kind == PresendFailureAttention
  }

  /** The open attention records that name `k` cover it. */
  predicate Recovered(wo: WorkOrder, b: Branch, outbox: OutboxMap, k: string) {
    && InBranch(wo, b, outbox, k)
    && exists a :: a in wo.attention && OpenRecovery(wo, b, a) && wo.attention[a].effect == Some(k)
  }

  predicate HeldForOperator(wo: WorkOrder, b: Branch, outbox: OutboxMap, k: string) {
    && InBranch(wo, b, outbox, k) && NeedsOperator(outbox[k])
    && exists a :: a in wo.attention && OpenOperator(wo, b, a) && wo.attention[a].id == a
        && wo.attention[a].effect == Some(k)
  }

  predicate RecoveryRecordClean(wo: WorkOrder, b: Branch, outbox: OutboxMap, a: string)
    requires a in wo.attention
  {
    && wo.attention[a].id == a && wo.attention[a].effect.Some?
    && InBranch(wo, b, outbox, wo.attention[a].effect.value)
    && var s := outbox[wo.attention[a].effect.value].status; s == Sending || s == DeliveryUnknown
  }

  predicate OperatorRecordClean(wo: WorkOrder, b: Branch, outbox: OutboxMap, a: string)
    requires a in wo.attention
  {
    && wo.attention[a].id == a && wo.attention[a].effect.Some?
    && InBranch(wo, b, outbox, wo.attention[a].effect.value)
    && NeedsOperator(outbox[wo.attention[a].effect.value])
  }

  predicate RecoveryClean(wo: WorkOrder, b: Branch, outbox: OutboxMap) {
    && (forall a :: a in wo.attention && OpenRecovery(wo, b, a) ==> RecoveryRecordClean(wo, b, outbox, a))
    && (forall k :: k in outbox && InBranch(wo, b, outbox, k) && outbox[k].status == DeliveryUnknown ==>
                    Recovered(wo, b, outbox, k))
  }

  predicate OperatorClean(wo: WorkOrder, b: Branch, outbox: OutboxMap) {
    && (forall a :: a in wo.attention && OpenOperator(wo, b, a) ==> OperatorRecordClean(wo, b, outbox, a))
    && (forall k :: k in outbox && InBranch(wo, b, outbox, k) && NeedsOperator(outbox[k]) ==>
                    HeldForOperator(wo, b, outbox, k))
  }

  /** No violation is reported for the branch. */
  predicate BranchClean(wo: WorkOrder, b: Branch, outbox: OutboxMap) {
    && EntriesClean(wo, b, outbox)
    && LineageClean(wo, b, outbox)
    && LanesClean(wo, b, outbox)
    && RecoveryClean(wo, b, outbox)
    && OperatorClean(wo, b, outbox)
  }

  // ---------------------------------------------------------------- goals are chains

  predicate InGoal(wo: WorkOrder, b: Branch, outbox: OutboxMap, goal: Goal, k: string) {
    InBranch(wo, b, outbox, k) && GoalOf(outbox[k]) == goal
  }

  /** The link of a chain at index `i`. */
  predicate IsLink(outbox: OutboxMap, chain: seq<string>, i: nat)
    requires i < |chain|
  {
    && chain[i] in outbox && Generation(outbox[chain[i]]) == i + 1
    && outbox[chain[i]].predecessor == (if i == 0 then NoPredecessor else After(chain[i - 1]))
    && (i < |chain| - 1 ==> outbox[chain[i]].status == NotSent)
  }

  /** Generations 1..n in order, each following the one before, all but the last proven not sent. */
  predicate IsChain(outbox: OutboxMap, chain: seq<string>) {
    forall i: nat :: i < |chain| ==> IsLink(outbox, chain, i)
  }

  ghost predicate ChainOf(wo: WorkOrder, b: Branch, outbox: OutboxMap, goal: Goal, chain: seq<string>) {
    IsChain(outbox, chain) && forall k :: k in chain <==> InGoal(wo, b, outbox, goal, k)
  }

  lemma ChainGrows(outbox: OutboxMap, chain: seq<string>, k: string)
    requires IsChain(outbox, chain) && k in outbox && Generation(outbox[k]) == |chain| + 1
    requires outbox[k].predecessor == if chain == [] then NoPredecessor else After(chain[|chain| - 1])
    requires chain != [] ==> chain[|chain| - 1] in outbox && outbox[chain[|chain| - 1]].status == NotSent
    ensures IsChain(outbox, chain + [k])
  {
    var longer := chain + [k];
    forall i: nat | i < |longer|
      ensures IsLink(outbox, longer, i)
    {
      if i < |chain| {
        assert IsLink(outbox, chain, i);
        assert longer[i] == chain[i] && (i > 0 ==> longer[i - 1] == chain[i - 1]);
      } else {
        assert longer[i] == k && (i > 0 ==> longer[i - 1] == chain[|chain| - 1]);
      }
    }
  }

  /** Following predecessors from a member down to the root of its goal. */
  lemma {:induction false} ChainTo(wo: WorkOrder, b: Branch, outbox: OutboxMap, goal: Goal, k: string)
    returns (chain: seq<string>)
    requires EntriesClean(wo, b, outbox) && LineageClean(wo, b, outbox) && InGoal(wo, b, outbox, goal, k)
    ensures IsChain(outbox, chain) && |chain| == Generation(outbox[k]) && |chain| > 0 && chain[|chain| - 1] == k
    ensures forall c :: c in chain ==> InGoal(wo, b, outbox, goal, c)
    decreases Generation(outbox[k])
  {
    assert EntryClean(k, outbox[k], b) && FollowsPredecessor(wo, b, outbox, outbox[k]);
    var before := [];
    if Generation(outbox[k]) > 1 {
      before := ChainTo(wo, b, outbox, goal, outbox[k].predecessor.id);
    }
    ChainGrows(outbox, before, k);
    chain := before + [k];
  }

  /** A non-empty set of effects has one of the highest generation. */
  lemma {:induction false} LatestOf(outbox: OutboxMap, keys: set<string>) returns (latest: string)
    requires keys != {} && keys <= outbox.Keys
    ensures latest in keys && forall k :: k in keys ==> Generation(outbox[k]) <= Generation(outbox[latest])
  {
    latest :| latest in keys;
    if keys != {latest} {
      var other := LatestOf(outbox, keys - {latest});
      if Generation(outbox[latest]) < Generation(outbox[other]) {
        latest := other;
      }
    }
  }

  ghost predicate HasChain(wo: WorkOrder, b: Branch, outbox: OutboxMap, goal: Goal) {
    exists chain :: ChainOf(wo, b, outbox, goal, chain)
  }

  /** Generations are unique within a goal, so a chain up to the highest one holds every member. */
  lemma ChainHoldsAll(wo: WorkOrder, b: Branch, outbox: OutboxMap, goal: Goal, chain: seq<string>, k: string)
    requires EntriesClean(wo, b, outbox) && LineageClean(wo, b, outbox) && IsChain(outbox, chain)
    requires forall c :: c in chain ==> InGoal(wo, b, outbox, goal, c)
    requires InGoal(wo, b, outbox, goal, k) && Generation(outbox[k]) <= |chain|
    ensures k in chain
  {
    assert EntryClean(k, outbox[k], b);
    var i := Generation(outbox[k]) - 1;
    assert IsLink(outbox, chain, i);
    assert chain[i] in chain && InGoal(wo, b, outbox, goal, chain[i]);
    assert chain[i] == k;
  }

  /** In a branch without lineage violations every operation goal is one linear chain. */
  lemma CleanGoalIsChain(wo: WorkOrder, b: Branch, outbox: OutboxMap, goal: Goal) returns (chain: seq<string>)
    requires EntriesClean(wo, b, outbox) && LineageClean(wo, b, outbox)
    ensures ChainOf(wo, b, outbox, goal, chain)
  {
    var members := set k | k in outbox && InGoal(wo, b, outbox, goal, k);
    if members == {} {
      chain := [];
      assert forall k :: InGoal(wo, b, outbox, goal, k) ==> k in members;
    } else {
      var latest := LatestOf(outbox, members);
      chain := ChainTo(wo, b, outbox, goal, latest);
      forall k | InGoal(wo, b, outbox, goal, k)
        ensures k in chain
      {
        assert k in members;
        ChainHoldsAll(wo, b, outbox, goal, chain, k);
      }
    }
  }

  /** The place of a member in its goal's chain. */
  lemma PlaceInChain(wo: WorkOrder, b: Branch, outbox: OutboxMap, goal: Goal, chain: seq<string>, k: string)
    returns (i: nat)
    requires ChainOf(wo, b, outbox, goal, chain) && InGoal(wo, b, outbox, goal, k)
    ensures i < |chain| && chain[i] == k && Generation(outbox[k]) == i + 1
  {
    assert k in chain;
    i :| i < |chain| && chain[i] == k;
    assert IsLink(outbox, chain, i);
  }

  lemma ChainMemberFollows(wo: WorkOrder, b: Branch, outbox: OutboxMap, goal: Goal, chain: seq<string>, k: string)
    requires ChainOf(wo, b, outbox, goal, chain) && InGoal(wo, b, outbox, goal, k)
    ensures FollowsPredecessor(wo, b, outbox, outbox[k])
  {
    var i := PlaceInChain(wo, b, outbox, goal, chain, k);
    assert IsLink(outbox, chain, i);
    if i > 0 {
      assert IsLink(outbox, chain, i - 1);
      assert chain[i - 1] in chain;
      assert InGoal(wo, b, outbox, goal, chain[i - 1]);
    }
  }

  lemma ChainMembersDiffer(wo: WorkOrder, b: Branch, outbox: OutboxMap, goal: Goal, chain: seq<string>, k: string,
                           l: string)
    requires ChainOf(wo, b, outbox, goal, chain)
    requires InGoal(wo, b, outbox, goal, k) && InGoal(wo, b, outbox, goal, l) && k != l
    ensures Generation(outbox[k]) != Generation(outbox[l])
  {
    var i := PlaceInChain(wo, b, outbox, goal, chain, k);
    var n := PlaceInChain(wo, b, outbox, goal, chain, l);
  }

  /** The converse: when every goal is a chain, the lineage checks find nothing. */
  lemma ChainsAreClean(wo: WorkOrder, b: Branch, outbox: OutboxMap)
    requires forall goal :: HasChain(wo, b, outbox, goal)
    ensures LineageClean(wo, b, outbox)
  {
    forall k | k in outbox && InBranch(wo, b, outbox, k)
      ensures FollowsPredecessor(wo, b, outbox, outbox[k])
    {
      var goal := GoalOf(outbox[k]);
      assert HasChain(wo, b, outbox, goal);
      var chain :| ChainOf(wo, b, outbox, goal, chain);
      ChainMemberFollows(wo, b, outbox, goal, chain, k);
    }
    forall k, l | && k in outbox && l in outbox && InBranch(wo, b, outbox, k) && InBranch(wo, b, outbox, l) && k != l
                  && GoalOf(outbox[k]) == GoalOf(outbox[l])
      ensures Generation(outbox[k]) != Generation(outbox[l])
    {
      var goal := GoalOf(outbox[k]);
      assert HasChain(wo, b, outbox, goal);
      var chain :| ChainOf(wo, b, outbox, goal, chain);
      ChainMembersDiffer(wo, b, outbox, goal, chain, k, l);
    }
  }

  /** The lineage checks pass exactly when every operation goal is one linear chain. */
  lemma LineageIsChains(wo: WorkOrder, b: Branch, outbox: OutboxMap)
    requires EntriesClean(wo, b, outbox)
    ensures LineageClean(wo, b, outbox) <==> forall goal :: HasChain(wo, b, outbox, goal)
  {
    if LineageClean(wo, b, outbox) {
      forall goal
        ensures HasChain(wo, b, outbox, goal)
      {
        var chain := CleanGoalIsChain(wo, b, outbox, goal);
      }
    } else if forall goal :: HasChain(wo, b, outbox, goal) {
      ChainsAreClean(wo, b, outbox);
    }
  }

  /** Two unresolved generations of one goal cannot coexist: all but the last were proven not sent. */
  lemma OneUnresolvedPerGoal(wo: WorkOrder, b: Branch, outbox: OutboxMap, k: string, l: string)
    requires EntriesClean(wo, b, outbox) && LineageClean(wo, b, outbox)
    requires InBranch(wo, b, outbox, k) && InBranch(wo, b, outbox, l) && k != l
    requires GoalOf(outbox[k]) == GoalOf(outbox[l])
    ensures !(Unresolved(outbox[k].status) && Unresolved(outbox[l].status))
  {
    var goal := GoalOf(outbox[k]);
    var chain := CleanGoalIsChain(wo, b, outbox, goal);
    var i := PlaceInChain(wo, b, outbox, goal, chain, k);
    var n := PlaceInChain(wo, b, outbox, goal, chain, l);
    assert IsLink(outbox, chain, i) && IsLink(outbox, chain, n);
  }

  /** No two effects of a goal follow the same predecessor. */
  lemma NoForks(wo: WorkOrder, b: Branch, outbox: OutboxMap, k: string, l: string)
    requires EntriesClean(wo, b, outbox) && LineageClean(wo, b, outbox)
    requires InBranch(wo, b, outbox, k) && InBranch(wo, b, outbox, l) && k != l
    requires GoalOf(outbox[k]) == GoalOf(outbox[l])
    requires outbox[k].predecessor.After?
    ensures outbox[k].predecessor != outbox[l].predecessor
  {
    assert EntryClean(k, outbox[k], b) && EntryClean(l, outbox[l], b);
    assert FollowsPredecessor(wo, b, outbox, outbox[k]) && FollowsPredecessor(wo, b, outbox, outbox[l]);
  }

  // ---------------------------------------------------------------- what a branch snapshot allows

  predicate HeldForCleanup(wo: WorkOrder, b: Branch, outbox: OutboxMap, k: string) {
    && InBranch(wo, b, outbox, k)
    && var e := outbox[k];
       || (Unresolved(e.status) && AttemptScopeOf(e, b) == Prior)
       || (Unresolved(e.status) && AttemptScopeOf(e, b) == Future)
       || e.status == DeliveryUnknown
       || Recovered(wo, b, outbox, k)
       || (wo.status == Paused && Unresolved(e.status) && MayHaveCrossed(e.status))
  }

  /** `lifecycle_retry_clear`: nothing to clean up and nothing unresolved on the current attempt. */
  predicate RetryClear(wo: WorkOrder, b: Branch, outbox: OutboxMap) {
    forall k :: k in outbox && InBranch(wo, b, outbox, k) ==>
      !HeldForCleanup(wo, b, outbox, k) && !(Unresolved(outbox[k].status) && AttemptScopeOf(outbox[k], b) == Current)
  }

  /** Retry clearance means just this: the branch has nothing unresolved and no open recovery. */
  lemma RetryClearMeansSettled(wo: WorkOrder, b: Branch, outbox: OutboxMap)
    requires RetryClear(wo, b, outbox)
    ensures forall k :: k in outbox && InBranch(wo, b, outbox, k) ==>
              !Unresolved(outbox[k].status) && !Recovered(wo, b, outbox, k)
  {
  }

  // ---------------------------------------------------------------- the whole work order

  predicate NormalBranches(wo: WorkOrder) {
    forall ref :: ref in wo.branches ==> wo.branches[ref].ref == ref
  }

  /** Every effect of the work order belongs to one of its branches. */
  predicate AllBound(wo: WorkOrder, outbox: OutboxMap) {
    forall k :: k in outbox && outbox[k].workOrder == wo.id ==> outbox[k].branch in wo.branches
  }

  predicate RecoveryBound(wo: WorkOrder) {
    forall a :: a in wo.attention && wo.attention[a].open && IsRecovery(wo.attention[a].kind) ==>
                wo.attention[a].branch.Some? && wo.attention[a].branch.value in wo.branches
  }

  /** The work-order snapshot carries no violation. */
  predicate WorkOrderClean(wo: WorkOrder, outbox: OutboxMap) {
    && (forall ref :: ref in wo.branches ==> BranchClean(wo, wo.branches[ref], outbox))
    && AllBound(wo, outbox)
    && RecoveryBound(wo)
  }
}
