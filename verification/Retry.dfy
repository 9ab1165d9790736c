/**
 The effect-generation retry the command boundary admits: it takes the latest start effect of the current
 attempt, insists that it was proven not sent and that its stored policy and schedule allow another
 generation, and only then lets a pending successor be enqueued.
 */
module Retry {
  import opened Basics
  import opened Lifecycle

  /** The start progress a branch records beside its attempt. */
  datatype Start = Start(
    turnStart: Option<string>,
    threadCreate: Option<string>,
    threadDelivery: Option<string>,
    threadIdentity: Option<string>,
    packet: Option<(string, string)>)

  datatype Terms = Terms(
    backoffInitial: nat, backoffMax: nat, maxAttempts: nat,
    attemptDeadline: Time, workOrderDeadline: Time, retryAt: Option<Time>)

  function StageOf(s: Start): Option<Kind> {
    if s.turnStart.Some? then None
    else if s.threadCreate.Some? then Some(TurnStart)
    else Some(ThreadCreate)
  }

  function ScopeOf(b: Branch, s: Start, kind: Kind): Option<ScopeHash> {
    if s.packet.None? then None
    else if kind == TurnStart then
      Some(Digest(TurnStartScope(b.provider, s.packet.value.0, s.packet.value.1,
                                 Stage(s.threadCreate, s.threadDelivery, s.threadIdentity))))
    else Some(Digest(ThreadCreateScope(b.provider, s.packet.value.0, s.packet.value.1)))
  }

  predicate IsStartCandidate(wo: WorkOrder, b: Branch, s: Start, e: Effect) {
    && StageOf(s).Some? && ScopeOf(b, s, StageOf(s).value).Some?
    && e.version == 2
    && e.workOrder == wo.id && e.branch == b.ref
    && e.attempt == b.attempt && e.dispatch == b.dispatch && e.provider == b.provider
    && e.kind == StageOf(s).value
    && e.scopeHash == ScopeOf(b, s, StageOf(s).value).value
    && e.packetRef == s.packet.value.0 && e.packetHash == s.packet.value.1
  }

  /** The candidate of the highest generation, found in outbox order. */
  method LatestCurrentStart(wo: WorkOrder, b: Branch, s: Start, outbox: OutboxMap, keys: seq<string>)
    returns (latest: Option<string>)
    requires forall k :: k in keys <==> k in outbox
    ensures latest.None? <==> forall k :: k in outbox ==> !IsStartCandidate(wo, b, s, outbox[k])
    ensures latest.Some? ==>
              && latest.value in outbox && IsStartCandidate(wo, b, s, outbox[latest.value])
              && forall k :: k in outbox && IsStartCandidate(wo, b, s, outbox[k]) ==>
                             Generation(outbox[k]) <= Generation(outbox[latest.value])
  {
    latest := None;
    for i := 0 to |keys|
      invariant latest.None? <==> forall k :: k in keys[..i] ==> !IsStartCandidate(wo, b, s, outbox[k])
      invariant latest.Some? ==>
                  && latest.value in outbox && IsStartCandidate(wo, b, s, outbox[latest.value])
                  && forall k :: k in keys[..i] && IsStartCandidate(wo, b, s, outbox[k]) ==>
                                 Generation(outbox[k]) <= Generation(outbox[latest.value])
    {
      var k := keys[i];
      assert k in outbox && keys[..i + 1] == keys[..i] + [k];
      if IsStartCandidate(wo, b, s, outbox[k])
         && (latest.None? || Generation(outbox[latest.value]) <= Generation(outbox[k])) {
        latest := Some(k);
      }
    }
    assert keys[..|keys|] == keys;
  }

  function Pow2(n: nat): nat {
    if n == 0 then 1 else 2 * Pow2(n - 1)
  }

  function RetryDelay(t: Terms, explicitRetry: bool, completed: int): nat {
    if explicitRetry || t.backoffInitial == 0 then 0
    else
      var raw := t.backoffInitial * Pow2(if completed <= 1 then 0 else completed - 1);
      if raw <= t.backoffMax then raw else t.backoffMax
  }

  datatype RetryError = Contradictory | Exhausted | ScheduleLost

  predicate PolicyAllows(e: Effect)
    requires e.policy.Some?
  {
    && e.policy.value.kind == e.kind
    && e.policy.value.classification == ClassifiedNotSent
    && e.policy.value.disposition == RetryCandidate
    && e.delivery.Some? && e.delivery.value.classification == ClassifiedNotSent
  }

  predicate TermsInRange(t: Terms) {
    1 <= t.maxAttempts && t.backoffInitial <= t.backoffMax
  }

  function EligibleAt(t: Terms, e: Effect): Time
    requires e.policy.Some? && e.delivery.Some?
  {
    e.delivery.value.recordedAt + RetryDelay(t, e.policy.value.explicitRetry, Generation(e))
  }

  predicate SchedulePermits(t: Terms, e: Effect)
    requires e.policy.Some? && e.delivery.Some?
  {
    && Generation(e) + 1 <= t.maxAttempts && Generation(e) + 1 <= MAX_SAFE_INTEGER
    && EligibleAt(t, e) < t.attemptDeadline && EligibleAt(t, e) < t.workOrderDeadline
  }

  /** What an admitted predecessor satisfies. */
  predicate Admitted(wo: WorkOrder, b: Branch, s: Start, t: Terms, outbox: OutboxMap, k: string) {
    && k in outbox && IsStartCandidate(wo, b, s, outbox[k])
    && (forall l :: l in outbox && IsStartCandidate(wo, b, s, outbox[l]) ==>
        Generation(outbox[l]) <= Generation(outbox[k]))
    && outbox[k].status == NotSent && outbox[k].policy.Some? && PolicyAllows(outbox[k])
    && TermsInRange(t) && 1 <= Generation(outbox[k]) && SchedulePermits(t, outbox[k])
    && (b.state == Retryable ==> t.retryAt == Some(EligibleAt(t, outbox[k])))
  }

  predicate OneCandidatePerGeneration(wo: WorkOrder, b: Branch, s: Start, outbox: OutboxMap) {
    forall k, l :: k in outbox && l in outbox && k != l
                   && IsStartCandidate(wo, b, s, outbox[k]) && IsStartCandidate(wo, b, s, outbox[l]) ==>
      Generation(outbox[k]) != Generation(outbox[l])
  }

  /** A candidate of the highest generation. */
  predicate IsLatest(wo: WorkOrder, b: Branch, s: Start, outbox: OutboxMap, k: string) {
    && k in outbox && IsStartCandidate(wo, b, s, outbox[k])
    && forall l :: l in outbox && IsStartCandidate(wo, b, s, outbox[l]) ==>
                   Generation(outbox[l]) <= Generation(outbox[k])
  }

  /** What the latest candidate allows: each answer and when it is given. */
  predicate AnswerFor(b: Branch, t: Terms, outbox: OutboxMap, k: string, r: Outcome<Option<string>, RetryError>)
    requires k in outbox
  {
    var e := outbox[k];
    var unsent := e.status == NotSent && e.policy.Some?;
    var sound := unsent && PolicyAllows(e) && TermsInRange(t) && 1 <= Generation(e);
    var timely := sound && SchedulePermits(t, e);
    var kept := timely && (b.state == Retryable ==> t.retryAt == Some(EligibleAt(t, e)));
    match r
    case Ok(None) => !unsent
    case Err(Contradictory) => unsent && !sound
    case Err(Exhausted) => sound && !timely
    case Err(ScheduleLost) => timely && !kept
    case Ok(Some(x)) => x == k && kept
  }

  /** `effectGenerationRetryBasis`: the predecessor to retry, nothing, or a refusal. */
  method GenerationRetryBasis(wo: WorkOrder, b: Branch, s: Start, t: Terms, outbox: OutboxMap, keys: seq<string>)
    returns (r: Outcome<Option<string>, RetryError>)
    requires forall k :: k in keys <==> k in outbox
    ensures r.Ok? && r.value.Some? ==> Admitted(wo, b, s, t, outbox, r.value.value)
    ensures OneCandidatePerGeneration(wo, b, s, outbox) ==>
              forall k :: Admitted(wo, b, s, t, outbox, k) ==> r == Ok(Some(k))
    ensures if forall k :: k in outbox ==> !IsStartCandidate(wo, b, s, outbox[k]) then r == Ok(None)
            else exists k :: IsLatest(wo, b, s, outbox, k) && AnswerFor(b, t, outbox, k, r)
  {
    var latest := LatestCurrentStart(wo, b, s, outbox, keys);
    if latest.None? { return Ok(None); }
    assert IsLatest(wo, b, s, outbox, latest.value);
    var e := outbox[latest.value];
    if e.status != NotSent || e.policy.None? { return Ok(None); }
    if !PolicyAllows(e) || !TermsInRange(t) || Generation(e) < 1 { return Err(Contradictory); }
    if !SchedulePermits(t, e) { return Err(Exhausted); }
    if b.state == Retryable && t.retryAt != Some(EligibleAt(t, e)) { return Err(ScheduleLost); }
    r := Ok(latest);
  }

  /** The wait before the next generation: the first backoff, doubled with every generation up to the largest. */
  function Backoff(t: Terms, generation: nat): nat
    requires generation >= 1
  {
    if generation == 1 then t.backoffInitial
    else if 2 * Backoff(t, generation - 1) <= t.backoffMax then 2 * Backoff(t, generation - 1)
    else t.backoffMax
  }

  function Doubled(first: nat, times: nat): nat {
    if times == 0 then first else 2 * Doubled(first, times - 1)
  }

  lemma {:induction false} PowersDouble(first: nat, times: nat)
    ensures first * Pow2(times) == Doubled(first, times)
  {
    if times > 0 {
      var half := Pow2(times - 1);
      PowersDouble(first, times - 1);
      assert first * (2 * half) == 2 * (first * half);
    }
  }

  lemma {:induction false} CappedIsBackoff(t: Terms, generation: nat)
    requires generation >= 1 && t.backoffInitial <= t.backoffMax
    ensures Backoff(t, generation) ==
              var raw := Doubled(t.backoffInitial, generation - 1);
              if raw <= t.backoffMax then raw else t.backoffMax
    ensures t.backoffInitial <= Backoff(t, generation) <= t.backoffMax
  {
    if generation > 1 {
      CappedIsBackoff(t, generation - 1);
    }
  }

  lemma DelayIsBackoff(t: Terms, generation: nat)
    requires generation >= 1 && 0 < t.backoffInitial <= t.backoffMax
    ensures RetryDelay(t, false, generation) == Backoff(t, generation)
    ensures t.backoffInitial <= Backoff(t, generation) <= t.backoffMax
  {
    PowersDouble(t.backoffInitial, generation - 1);
    CappedIsBackoff(t, generation);
  }

  /** When a retry may start: at once if the user asked for it or no backoff is set, else after the backoff. */
  lemma EligibleAfterBackoff(t: Terms, e: Effect)
    requires e.policy.Some? && e.delivery.Some? && 1 <= Generation(e) && t.backoffInitial <= t.backoffMax
    ensures EligibleAt(t, e) - e.delivery.value.recordedAt
            == if e.policy.value.explicitRetry || t.backoffInitial == 0 then 0 else Backoff(t, Generation(e))
  {
    if !e.policy.value.explicitRetry && t.backoffInitial != 0 {
      DelayIsBackoff(t, Generation(e));
    }
  }

  // ---------------------------------------------------------------- the successor

  function Successor(e: Effect, id: string): Effect
    requires e.generation.Some?
  {
    e.(id := id, generation := Some(e.generation.value + 1), predecessor := After(e.id),
       status := Pending, policy := None, delivery := None, lease := None)
  }

  /** The projector derives the scope hash of a start effect from the effect's own fields. */
  predicate ScopesDerived(outbox: OutboxMap) {
    forall k :: k in outbox ==>
      && (outbox[k].kind == ThreadCreate ==>
            outbox[k].scopeHash == Digest(ThreadCreateScope(outbox[k].provider, outbox[k].packetRef,
                                                            outbox[k].packetHash)))
      && (outbox[k].kind == TurnStart ==>
            outbox[k].scopeHash == Digest(TurnStartScope(outbox[k].provider, outbox[k].packetRef,
                                                         outbox[k].packetHash, outbox[k].stage)))
  }

  /** Every member of the admitted effect's goal is itself a candidate, so the admitted one is its latest. */
  lemma AdmittedIsLatestOfGoal(wo: WorkOrder, b: Branch, s: Start, t: Terms, outbox: OutboxMap, k: string, l: string)
    requires Admitted(wo, b, s, t, outbox, k) && ScopesDerived(outbox) && EntriesClean(wo, b, outbox)
    requires InBranch(wo, b, outbox, l) && GoalOf(outbox[l]) == GoalOf(outbox[k])
    ensures Generation(outbox[l]) <= Generation(outbox[k])
  {
    assert EntryClean(l, outbox[l], b);
    assert IsStartCandidate(wo, b, s, outbox[l]);
  }

  /** A successor to the latest, never sent generation extends the goal's chain. */
  lemma SuccessorKeepsLineage(wo: WorkOrder, b: Branch, outbox: OutboxMap, k: string, id: string)
    requires EntriesClean(wo, b, outbox) && LineageClean(wo, b, outbox)
    requires InBranch(wo, b, outbox, k) && outbox[k].status == NotSent && id !in outbox
    requires Generation(outbox[k]) < MAX_SAFE_INTEGER
    requires forall l :: l in outbox && InBranch(wo, b, outbox, l) && GoalOf(outbox[l]) == GoalOf(outbox[k]) ==>
                         Generation(outbox[l]) <= Generation(outbox[k])
    ensures outbox[k].generation.Some?
    ensures var outbox' := outbox[id := Successor(outbox[k], id)];
            EntriesClean(wo, b, outbox') && LineageClean(wo, b, outbox')
  {
    assert EntryClean(k, outbox[k], b);
    var outbox' := outbox[id := Successor(outbox[k], id)];
    forall x | x in outbox' && InBranch(wo, b, outbox', x)
      ensures EntryClean(x, outbox'[x], b) && FollowsPredecessor(wo, b, outbox', outbox'[x])
    {
      if x != id {
        assert InBranch(wo, b, outbox, x);
        assert EntryClean(x, outbox[x], b) && FollowsPredecessor(wo, b, outbox, outbox[x]);
      }
    }
    forall x, y | x in outbox' && y in outbox' && InBranch(wo, b, outbox', x) && InBranch(wo, b, outbox', y) && x != y
                  && GoalOf(outbox'[x]) == GoalOf(outbox'[y])
      ensures Generation(outbox'[x]) != Generation(outbox'[y])
    {
      assert x != id ==> InBranch(wo, b, outbox, x);
      assert y != id ==> InBranch(wo, b, outbox, y);
    }
  }

  lemma SuccessorKeepsAttention(wo: WorkOrder, b: Branch, outbox: OutboxMap, id: string, e: Effect)
    requires id !in outbox && e.status == Pending && RecoveryClean(wo, b, outbox) && OperatorClean(wo, b, outbox)
    ensures RecoveryClean(wo, b, outbox[id := e]) && OperatorClean(wo, b, outbox[id := e])
  {
    var outbox' := outbox[id := e];
    assert forall x :: x != id ==> (InBranch(wo, b, outbox, x) <==> InBranch(wo, b, outbox', x));
    forall a | a in wo.attention && OpenRecovery(wo, b, a)
      ensures RecoveryRecordClean(wo, b, outbox', a)
    {
      assert RecoveryRecordClean(wo, b, outbox, a);
    }
    forall a | a in wo.attention && OpenOperator(wo, b, a)
      ensures OperatorRecordClean(wo, b, outbox', a)
    {
      assert OperatorRecordClean(wo, b, outbox, a);
    }
    forall x | x in outbox' && InBranch(wo, b, outbox', x) && outbox'[x].status == DeliveryUnknown
      ensures Recovered(wo, b, outbox', x)
    {
      assert Recovered(wo, b, outbox, x);
    }
    forall x | x in outbox' && InBranch(wo, b, outbox', x) && NeedsOperator(outbox'[x])
      ensures HeldForOperator(wo, b, outbox', x)
    {
      assert HeldForOperator(wo, b, outbox, x);
    }
  }

  /** A branch the new effect does not belong to sees the same outbox as before. */
  lemma OtherBranchUnchanged(wo: WorkOrder, b: Branch, outbox: OutboxMap, id: string, e: Effect)
    requires id !in outbox && e.branch != b.ref && BranchClean(wo, b, outbox)
    ensures BranchClean(wo, b, outbox[id := e])
  {
    var outbox' := outbox[id := e];
    assert forall x :: InBranch(wo, b, outbox, x) <==> InBranch(wo, b, outbox', x);
    assert forall x :: InBranch(wo, b, outbox, x) ==> outbox'[x] == outbox[x];
    forall x | x in outbox' && InBranch(wo, b, outbox', x)
      ensures FollowsPredecessor(wo, b, outbox', outbox'[x])
    {
      assert FollowsPredecessor(wo, b, outbox, outbox[x]);
    }
    forall a | a in wo.attention && OpenRecovery(wo, b, a)
      ensures RecoveryRecordClean(wo, b, outbox', a)
    {
      assert RecoveryRecordClean(wo, b, outbox, a);
    }
    forall a | a in wo.attention && OpenOperator(wo, b, a)
      ensures OperatorRecordClean(wo, b, outbox', a)
    {
      assert OperatorRecordClean(wo, b, outbox, a);
    }
    forall x | x in outbox' && InBranch(wo, b, outbox', x) && outbox'[x].status == DeliveryUnknown
      ensures Recovered(wo, b, outbox', x)
    {
      assert Recovered(wo, b, outbox, x);
    }
    forall x | x in outbox' && InBranch(wo, b, outbox', x) && NeedsOperator(outbox'[x])
      ensures HeldForOperator(wo, b, outbox', x)
    {
      assert HeldForOperator(wo, b, outbox, x);
    }
  }

  /** `id` is the one effect of the branch still unresolved. */
  predicate SoleUnresolved(wo: WorkOrder, b: Branch, outbox: OutboxMap, id: string) {
    && InBranch(wo, b, outbox, id) && Unresolved(outbox[id].status)
    && forall x :: x in outbox && InBranch(wo, b, outbox, x) && Unresolved(outbox[x].status) ==> x == id
  }

  /** Nothing unresolved was left on the branch, so the pending effect stands alone in its lane. */
  lemma PendingStandsAlone(wo: WorkOrder, b: Branch, outbox: OutboxMap, id: string, e: Effect)
    requires RetryClear(wo, b, outbox) && LanesClean(wo, b, outbox)
    requires id !in outbox && e.status == Pending && e.workOrder == wo.id && e.branch == b.ref
    ensures LanesClean(wo, b, outbox[id := e]) && SoleUnresolved(wo, b, outbox[id := e], id)
  {
    var outbox' := outbox[id := e];
    RetryClearMeansSettled(wo, b, outbox);
    forall x | x in outbox' && InBranch(wo, b, outbox', x) && Unresolved(outbox'[x].status)
      ensures x == id
    {
      assert x != id ==> InBranch(wo, b, outbox, x);
    }
  }

  /** The retried branch itself stays clean. */
  lemma RetriedBranchStaysClean(wo: WorkOrder, b: Branch, s: Start, t: Terms, outbox: OutboxMap, k: string, id: string)
    requires BranchClean(wo, b, outbox) && ScopesDerived(outbox) && RetryClear(wo, b, outbox)
    requires Admitted(wo, b, s, t, outbox, k) && id !in outbox
    ensures outbox[k].generation.Some?
    ensures BranchClean(wo, b, outbox[id := Successor(outbox[k], id)])
    ensures SoleUnresolved(wo, b, outbox[id := Successor(outbox[k], id)], id)
  {
    assert InBranch(wo, b, outbox, k) && EntryClean(k, outbox[k], b);
    forall l | l in outbox && InBranch(wo, b, outbox, l) && GoalOf(outbox[l]) == GoalOf(outbox[k])
      ensures Generation(outbox[l]) <= Generation(outbox[k])
    {
      AdmittedIsLatestOfGoal(wo, b, s, t, outbox, k, l);
    }
    var e := Successor(outbox[k], id);
    SuccessorKeepsLineage(wo, b, outbox, k, id);
    SuccessorKeepsAttention(wo, b, outbox, id, e);
    PendingStandsAlone(wo, b, outbox, id, e);
  }

  /** One more effect on a branch that stays clean leaves the whole work order clean. */
  lemma OneBranchGrows(wo: WorkOrder, ref: string, outbox: OutboxMap, id: string, e: Effect)
    requires NormalBranches(wo) && ref in wo.branches && WorkOrderClean(wo, outbox)
    requires id !in outbox && e.branch == ref && BranchClean(wo, wo.branches[ref], outbox[id := e])
    ensures WorkOrderClean(wo, outbox[id := e])
  {
    forall other | other in wo.branches && other != ref
      ensures BranchClean(wo, wo.branches[other], outbox[id := e])
    {
      OtherBranchUnchanged(wo, wo.branches[other], outbox, id, e);
    }
    assert AllBound(wo, outbox[id := e]);
  }

  lemma SuccessorScopeDerived(outbox: OutboxMap, k: string, id: string)
    requires ScopesDerived(outbox) && k in outbox && outbox[k].generation.Some?
    ensures ScopesDerived(outbox[id := Successor(outbox[k], id)])
  {
  }

  /**
   Whenever the boundary admits a generation retry on a clean work order whose branch is clear for retry,
   enqueuing the successor leaves the work order clean and exactly one unresolved effect on the branch.
   */
  lemma AdmittedRetryStaysClean(wo: WorkOrder, ref: string, s: Start, t: Terms, outbox: OutboxMap, k: string,
                                id: string)
    requires NormalBranches(wo) && ref in wo.branches && WorkOrderClean(wo, outbox) && ScopesDerived(outbox)
    requires RetryClear(wo, wo.branches[ref], outbox)
    requires Admitted(wo, wo.branches[ref], s, t, outbox, k) && id !in outbox
    ensures outbox[k].generation.Some?
    ensures var outbox' := outbox[id := Successor(outbox[k], id)];
            && WorkOrderClean(wo, outbox') && ScopesDerived(outbox')
            && SoleUnresolved(wo, wo.branches[ref], outbox', id)
  {
    RetriedBranchStaysClean(wo, wo.branches[ref], s, t, outbox, k, id);
    SuccessorScopeDerived(outbox, k, id);
    OneBranchGrows(wo, ref, outbox, id, Successor(outbox[k], id));
  }
}
