/**
 The reactor's planner: what automation a work order's lifecycle snapshot allows, the step each unresolved
 effect asks for, and the choice of the one step the reactor takes next.
 */
module Planner {
  import opened Basics
  import opened Lifecycle
  import O = Outbox
  import Text

  datatype Projection = Projection(
    cutOver: bool,                     // a provider settlement epoch has been recorded
    workOrders: map<string, WorkOrder>,
    outbox: OutboxMap,
    derivedIds: set<string>)           // effects whose identifiers derive from their identity

  datatype Verb = Claim | Requeue | Send | LookupWorkerResult | ExpireSend | ProbeDeliveryUnknown
  datatype WaitReason = ReplayOnlyEffect | WorkOrderTerminal | StaleAttempt | LifecycleBlocksClaim | ClaimedByPriorRun
  datatype IdleReason = CutoverRequired | NoUnresolvedEffect | NoExecutableEffect

  datatype Decision =
    | Idle(why: IdleReason)
    | Do(effect: string, verb: Verb)
    | Wait(effect: string, reason: WaitReason, notBefore: Option<Time>)

  type Step = Outcome<Option<Decision>, PlanError>
  datatype PlanError = EffectNotFound | IdentityInvalid | WorkOrderMissing | LifecycleInvalid | LeaseMissing

  // ---------------------------------------------------------------- automation

  predicate Finished(s: WorkOrderStatus) {
    s == Accepted || s == FailedWork || s == CancelledWork
  }

  predicate CleanupHold(wo: WorkOrder, outbox: OutboxMap) {
    exists ref, k :: ref in wo.branches && k in outbox && HeldForCleanup(wo, wo.branches[ref], outbox, k)
  }

  predicate OperatorHold(wo: WorkOrder, outbox: OutboxMap) {
    exists ref, k :: ref in wo.branches && k in outbox && HeldForOperator(wo, wo.branches[ref], outbox, k)
  }

  datatype Automation = CleanupHeld | PausedState | TerminalState | CancellingState | AwaitingState | Runnable

  /** The automation state of a snapshot that carries no violation. */
  function AutomationOf(wo: WorkOrder, outbox: OutboxMap): Automation {
    if CleanupHold(wo, outbox) then CleanupHeld
    else if OperatorHold(wo, outbox) then PausedState
    else if Finished(wo.status) then TerminalState
    else if wo.status == CancellingWork then CancellingState
    else if wo.status == Paused then PausedState
    else if wo.status == AwaitingAcceptance then AwaitingState
    else Runnable
  }

  predicate MayRunCleanup(a: Automation) {
    a == CleanupHeld || a == CancellingState
  }

  /** Nothing about the work order's effects or its attention records is left to clean up or to decide. */
  predicate Unencumbered(wo: WorkOrder, outbox: OutboxMap) {
    && (forall k :: k in outbox && outbox[k].workOrder == wo.id ==>
          && outbox[k].branch in wo.branches
          && outbox[k].status != DeliveryUnknown
          && (Unresolved(outbox[k].status) ==> AttemptScopeOf(outbox[k], wo.branches[outbox[k].branch]) == Current))
    && (forall a :: a in wo.attention && wo.attention[a].open ==>
          && !IsRecovery(wo.attention[a].kind)
          && (wo.attention[a].kind == PresendFailureAttention ==>
                wo.attention[a].branch.None? || wo.attention[a].branch.value !in wo.branches))
  }

  /** Without violations, no hold is left exactly when the work order is unencumbered. */
  lemma NoHoldMeansUnencumbered(wo: WorkOrder, outbox: OutboxMap)
    requires NormalBranches(wo) && WorkOrderClean(wo, outbox) && wo.status != Paused
    ensures !CleanupHold(wo, outbox) && !OperatorHold(wo, outbox) <==> Unencumbered(wo, outbox)
  {
    if !CleanupHold(wo, outbox) && !OperatorHold(wo, outbox) {
      EffectsUnencumbered(wo, outbox);
      AttentionUnencumbered(wo, outbox);
    }
    if Unencumbered(wo, outbox) {
      forall ref, k | ref in wo.branches && k in outbox
        ensures !HeldForCleanup(wo, wo.branches[ref], outbox, k) && !HeldForOperator(wo, wo.branches[ref], outbox, k)
      {
      }
    }
  }

  lemma EffectsUnencumbered(wo: WorkOrder, outbox: OutboxMap)
    requires NormalBranches(wo) && WorkOrderClean(wo, outbox) && !CleanupHold(wo, outbox)
    ensures forall k :: k in outbox && outbox[k].workOrder == wo.id ==>
              && outbox[k].branch in wo.branches
              && outbox[k].status != DeliveryUnknown
              && (Unresolved(outbox[k].status) ==> AttemptScopeOf(outbox[k], wo.branches[outbox[k].branch]) == Current)
  {
    forall k | k in outbox && outbox[k].workOrder == wo.id
      ensures outbox[k].branch in wo.branches
      ensures outbox[k].status != DeliveryUnknown
      ensures Unresolved(outbox[k].status) ==> AttemptScopeOf(outbox[k], wo.branches[outbox[k].branch]) == Current
    {
      var ref := outbox[k].branch;
      assert !HeldForCleanup(wo, wo.branches[ref], outbox, k);
    }
  }

  /** An open recovery or operator record of a clean branch holds the effect it names. */
  lemma OpenRecordHolds(wo: WorkOrder, outbox: OutboxMap, ref: string, a: string)
    requires ref in wo.branches && BranchClean(wo, wo.branches[ref], outbox) && a in wo.attention
    ensures OpenRecovery(wo, wo.branches[ref], a) ==> CleanupHold(wo, outbox)
    ensures OpenOperator(wo, wo.branches[ref], a) ==> OperatorHold(wo, outbox)
  {
    var b := wo.branches[ref];
    if OpenRecovery(wo, b, a) {
      assert RecoveryRecordClean(wo, b, outbox, a);
      assert Recovered(wo, b, outbox, wo.attention[a].effect.value);
      assert HeldForCleanup(wo, b, outbox, wo.attention[a].effect.value);
    }
    if OpenOperator(wo, b, a) {
      assert OperatorRecordClean(wo, b, outbox, a);
      assert HeldForOperator(wo, b, outbox, wo.attention[a].effect.value);
    }
  }

  lemma AttentionUnencumbered(wo: WorkOrder, outbox: OutboxMap)
    requires NormalBranches(wo) && WorkOrderClean(wo, outbox) && !CleanupHold(wo, outbox) && !OperatorHold(wo, outbox)
    ensures forall a :: a in wo.attention && wo.attention[a].open ==>
              && !IsRecovery(wo.attention[a].kind)
              && (wo.attention[a].kind == PresendFailureAttention ==>
                    wo.attention[a].branch.None? || wo.attention[a].branch.value !in wo.branches)
  {
    forall a | a in wo.attention && wo.attention[a].open
               && wo.attention[a].branch.Some? && wo.attention[a].branch.value in wo.branches
      ensures !IsRecovery(wo.attention[a].kind) && wo.attention[a].kind != PresendFailureAttention
    {
      OpenRecordHolds(wo, outbox, wo.attention[a].branch.value, a);
    }
  }

  /** Forward work may go on: nothing ambiguous, unbound, stale or awaiting an operator anywhere in the work order. */
  predicate ForwardClear(wo: WorkOrder, outbox: OutboxMap) {
    (wo.status == Starting || wo.status == Active) && Unencumbered(wo, outbox)
  }

  predicate CleanupDue(wo: WorkOrder, outbox: OutboxMap) {
    CleanupHold(wo, outbox) || (wo.status == CancellingWork && !OperatorHold(wo, outbox))
  }

  /** The automation states that let a pending effect be claimed. */
  lemma AutomationMeans(wo: WorkOrder, outbox: OutboxMap)
    requires NormalBranches(wo) && WorkOrderClean(wo, outbox)
    ensures AutomationOf(wo, outbox) == Runnable <==> ForwardClear(wo, outbox)
    ensures MayRunCleanup(AutomationOf(wo, outbox)) <==> CleanupDue(wo, outbox)
  {
    if wo.status != Paused {
      NoHoldMeansUnencumbered(wo, outbox);
    }
  }

  // ---------------------------------------------------------------- the step one effect asks for

  /** The step of an effect of the current attempt, by its status. */
  function StatusStep(e: Effect, automation: Automation, now: Time,
                      claims: map<string, O.Token>): (r: Outcome<Option<Decision>, PlanError>)
    ensures r.Ok? && r.value.Some? ==> !r.value.value.Idle? && r.value.value.effect == e.id
  {
    match e.status
    case Pending =>
      if automation == Runnable || (e.kind == TurnCancel && MayRunCleanup(automation)) then Ok(Some(Do(e.id, Claim)))
      else Ok(Some(Wait(e.id, LifecycleBlocksClaim, None)))
    case Claimed =>
      if e.lease.None? then Err(LeaseMissing)
      else if e.lease.value.expiresAt <= now then Ok(Some(Do(e.id, Requeue)))
      else if e.id in claims && claims[e.id] == e.lease.value.token then Ok(Some(Do(e.id, Send)))
      else Ok(Some(Wait(e.id, ClaimedByPriorRun, Some(e.lease.value.expiresAt))))
    case Sending =>
      if e.lease.None? then Err(LeaseMissing)
      else if e.lease.value.expiresAt <= now then Ok(Some(Do(e.id, ExpireSend)))
      else Ok(Some(Do(e.id, LookupWorkerResult)))
    case DeliveryUnknown => Ok(Some(Do(e.id, ProbeDeliveryUnknown)))
    case _ => Ok(None)
  }

  /** The step of an effect bound to a work order whose snapshot is known to carry no violation, or to carry some. */
  function BoundStep(e: Effect, wo: WorkOrder, clean: bool, automation: Automation, now: Time,
                     claims: map<string, O.Token>)
    : (r: Outcome<Option<Decision>, PlanError>)
    ensures r.Ok? && r.value.Some? ==> !r.value.value.Idle? && r.value.value.effect == e.id
  {
    if !clean || e.branch !in wo.branches then Err(LifecycleInvalid)
    else if Finished(wo.status) then Ok(Some(Wait(e.id, WorkOrderTerminal, None)))
    else if AttemptScopeOf(e, wo.branches[e.branch]) != Current then Ok(Some(Wait(e.id, StaleAttempt, None)))
    else StatusStep(e, automation, now, claims)
  }

  /** The decision pushed for one effect, None when it is settled, or the error that stops the planner. */
  function StepFor(p: Projection, now: Time, claims: map<string, O.Token>, k: string): (r: Step)
    requires k in p.outbox
    ensures r.Ok? && r.value.Some? ==> !r.value.value.Idle? && r.value.value.effect == p.outbox[k].id
  {
    var e := p.outbox[k];
    if e.version != 2 then Ok(Some(Wait(e.id, ReplayOnlyEffect, None)))
    else if k !in p.derivedIds then Err(IdentityInvalid)
    else if e.workOrder !in p.workOrders then Err(WorkOrderMissing)
    else
      var wo := p.workOrders[e.workOrder];
      BoundStep(e, wo, WorkOrderClean(wo, p.outbox), AutomationOf(wo, p.outbox), now, claims)
  }

  // ---------------------------------------------------------------- the choice

  datatype Urgency = At(value: int) | Never

  function UrgencyOf(d: Decision): Urgency {
    match d
    case Do(_, Send) => At(0)
    case Do(_, Claim) => At(2)
    case Do(_, LookupWorkerResult) => At(3)
    case Do(_, _) => At(1)
    case Wait(_, _, Some(t)) => At(t)
    case _ => Never
  }

  predicate Sooner(a: Decision, b: Decision)
    requires !a.Idle? && !b.Idle?
  {
    var x, y := UrgencyOf(a), UrgencyOf(b);
    || (x.At? && (y.Never? || x.value < y.value))
    || (x == y && Text.Before(a.effect, b.effect))
  }

  lemma SoonerIsTransitive(a: Decision, b: Decision, c: Decision)
    requires !a.Idle? && !b.Idle? && !c.Idle? && Sooner(a, b) && !Sooner(c, b)
    ensures !Sooner(c, a)
  {
    if UrgencyOf(a) == UrgencyOf(b) {
      Text.BeforeIsAsymmetric(a.effect, b.effect);
      if Text.Before(c.effect, a.effect) {
        Text.BeforeIsTransitive(c.effect, a.effect, b.effect);
      }
    }
  }

  /** The first element after sorting: nothing in the list is sooner. */
  method First(list: seq<Decision>) returns (d: Decision)
    requires list != [] && forall i :: 0 <= i < |list| ==> !list[i].Idle?
    ensures d in list && forall i :: 0 <= i < |list| ==> !Sooner(list[i], d)
  {
    d := list[0];
    Text.BeforeIsIrreflexive(d.effect);
    for n := 1 to |list|
      invariant d in list[..n] && forall i :: 0 <= i < n ==> !Sooner(list[i], d)
    {
      if Sooner(list[n], d) {
        forall i | 0 <= i < n
          ensures !Sooner(list[i], list[n])
        {
          SoonerIsTransitive(list[n], d, list[i]);
        }
        Text.BeforeIsIrreflexive(list[n].effect);
        d := list[n];
      }
    }
  }

  predicate Executable(e: Effect) {
    e.version == 2 && Unresolved(e.status)
  }

  /** The effects the planner looks at: the requested one, or every executable one. */
  predicate Candidate(p: Projection, selected: Option<string>, k: string) {
    k in p.outbox && if selected.Some? then k == selected.value else Executable(p.outbox[k])
  }

  /** The step of every candidate. */
  function Steps(p: Projection, now: Time, claims: map<string, O.Token>,
                 selected: Option<string>): (steps: map<string, Step>)
    ensures forall k :: k in steps <==> Candidate(p, selected, k)
    ensures Proper(steps)
    ensures forall k :: k in steps && Offers(steps, k) ==>
              k in p.outbox && steps[k].value.value.effect == p.outbox[k].id
  {
    map k | k in p.outbox && Candidate(p, selected, k) :: StepFor(p, now, claims, k)
  }

  predicate Offers(steps: map<string, Step>, k: string) {
    k in steps && steps[k].Ok? && steps[k].value.Some?
  }

  predicate Proper(steps: map<string, Step>) {
    forall k :: k in steps && Offers(steps, k) ==> !steps[k].value.value.Idle?
  }

  predicate Offered(steps: map<string, Step>, d: Decision) {
    exists k :: k in steps && Offers(steps, k) && steps[k].value.value == d
  }

  /** What the chosen decision must be, whatever order the candidates are visited in. */
  ghost predicate Chosen(steps: map<string, Step>, d: Decision)
    requires Proper(steps)
  {
    match d
    case Do(_, _) =>
      && Offered(steps, d)
      && (forall k :: k in steps && Offers(steps, k) && steps[k].value.value.Do? ==> !Sooner(steps[k].value.value, d))
    case Wait(_, _, _) =>
      && Offered(steps, d)
      && (forall k :: k in steps && Offers(steps, k) ==> steps[k].value.value.Wait? && !Sooner(steps[k].value.value, d))
    case Idle(why) =>
      && (forall k :: k in steps ==> !Offers(steps, k))
      && (why == NoUnresolvedEffect <==> steps == map[])
      && why != CutoverRequired
  }

  predicate NoneFails(steps: map<string, Step>) {
    forall k :: k in steps ==> steps[k].Ok?
  }

  /** Of the keys that have a step, the `n`th is the first to fail. */
  predicate FailsFirst(steps: map<string, Step>, keys: seq<string>, e: PlanError, n: nat) {
    && n < |keys| && keys[n] in steps && steps[keys[n]] == Err(e)
    && forall m :: 0 <= m < n && keys[m] in steps ==> steps[keys[m]].Ok?
  }

  ghost predicate FirstFailure(steps: map<string, Step>, keys: seq<string>, e: PlanError) {
    exists n: nat :: FailsFirst(steps, keys, e, n)
  }

  /** The planner's loop: every candidate's step goes to `actions` or to `waits`; the soonest one wins. */
  method Choose(steps: map<string, Step>, keys: seq<string>) returns (r: Outcome<Decision, PlanError>)
    requires Proper(steps) && forall k :: k in keys <==> k in steps
    ensures r.Ok? ==> Chosen(steps, r.value) && NoneFails(steps)
    ensures r.Err? ==> FirstFailure(steps, keys, r.error)
  {
    if keys == [] {
      return Ok(Idle(NoUnresolvedEffect));
    }
    assert keys[0] in steps;
    var actions: seq<Decision>, waits: seq<Decision> := [], [];
    for i := 0 to |keys|
      invariant forall n :: 0 <= n < i ==> keys[n] in steps && steps[keys[n]].Ok?
      invariant forall n :: 0 <= n < |actions| ==> actions[n].Do? && Offered(steps, actions[n])
      invariant forall n :: 0 <= n < |waits| ==> waits[n].Wait? && Offered(steps, waits[n])
      invariant forall n :: 0 <= n < i && Offers(steps, keys[n]) ==>
                  if steps[keys[n]].value.value.Do? then steps[keys[n]].value.value in actions
                  else steps[keys[n]].value.value in waits
    {
      assert keys[i] in steps;
      var step := steps[keys[i]];
      if step.Err? {
        assert FailsFirst(steps, keys, step.error, i);
        return Err(step.error);
      }
      if step.value.Some? {
        assert Offers(steps, keys[i]);
        if step.value.value.Do? {
          actions := actions + [step.value.value];
        } else {
          waits := waits + [step.value.value];
        }
      }
    }
    if actions != [] {
      var d := First(actions);
      return Ok(d);
    }
    if waits == [] {
      return Ok(Idle(NoExecutableEffect));
    }
    var d := First(waits);
    return Ok(d);
  }

  /** Those of a list that are wanted, in the order of the list. */
  function Among(wanted: set<string>, all: seq<string>): (keys: seq<string>)
    ensures forall k :: k in keys <==> k in all && k in wanted
  {
    if all == [] then []
    else
      var before, last := Among(wanted, all[..|all| - 1]), all[|all| - 1];
      assert all == all[..|all| - 1] + [last];
      if last in wanted then before + [last] else before
  }

  /** The candidate keys, in the order in which the effects are visited. */
  method Candidates(p: Projection, selected: Option<string>, all: seq<string>, ghost wanted: set<string>)
    returns (keys: seq<string>)
    requires forall k :: k in wanted <==> Candidate(p, selected, k)
    ensures keys == Among(wanted, all)
  {
    keys := [];
    for i := 0 to |all|
      invariant keys == Among(wanted, all[..i])
    {
      assert all[..i + 1][..i] == all[..i];
      if Candidate(p, selected, all[i]) {
        keys := keys + [all[i]];
      }
    }
    assert all[..|all|] == all;
  }

  lemma EarlierFailureStays(steps: map<string, Step>, all: seq<string>, e: PlanError)
    requires all != [] && FirstFailure(steps, all[..|all| - 1], e)
    ensures FirstFailure(steps, all, e)
  {
    var before := all[..|all| - 1];
    var n: nat :| FailsFirst(steps, before, e, n);
    assert forall m :: 0 <= m <= n ==> all[m] == before[m];
    assert FailsFirst(steps, all, e, n);
  }

  /** The first to fail of the keys with a step is the first to fail of them all. */
  lemma {:induction false} FirstFailureInOrder(steps: map<string, Step>, all: seq<string>, e: PlanError)
    requires FirstFailure(steps, Among(steps.Keys, all), e)
    ensures FirstFailure(steps, all, e)
  {
    var keys := Among(steps.Keys, all);
    var n: nat :| FailsFirst(steps, keys, e, n);
    var before := all[..|all| - 1];
    var earlier := Among(steps.Keys, before);
    assert forall m :: 0 <= m < |earlier| ==> keys[m] == earlier[m];
    if n < |earlier| {
      assert FailsFirst(steps, earlier, e, n);
      FirstFailureInOrder(steps, before, e);
      EarlierFailureStays(steps, all, e);
    } else {
      forall m | 0 <= m < |before| && before[m] in steps
        ensures steps[before[m]].Ok?
      {
        assert before[m] in earlier;
        var i :| 0 <= i < |earlier| && earlier[i] == before[m];
        assert keys[i] == before[m];
      }
      assert FailsFirst(steps, all, e, |before|);
    }
  }

  /** The next step of the reactor; an error is that of the first candidate visited that fails. */
  method DerivePlan(p: Projection, now: Time, claims: map<string, O.Token>, selected: Option<string>, all: seq<string>)
    returns (r: Outcome<Decision, PlanError>)
    requires forall k :: k in all <==> k in p.outbox
    ensures !p.cutOver ==> r == Ok(Idle(CutoverRequired))
    ensures p.cutOver && selected.Some? && selected.value !in p.outbox ==> r == Err(EffectNotFound)
    ensures p.cutOver && (selected.Some? ==> selected.value in p.outbox) ==>
              match r
              case Ok(d) => Chosen(Steps(p, now, claims, selected), d) && NoneFails(Steps(p, now, claims, selected))
              case Err(e) => FirstFailure(Steps(p, now, claims, selected), all, e)
  {
    if !p.cutOver { return Ok(Idle(CutoverRequired)); }
    if selected.Some? && selected.value !in p.outbox { return Err(EffectNotFound); }
    var steps := Steps(p, now, claims, selected);
    var keys := Candidates(p, selected, all, steps.Keys);
    r := Choose(steps, keys);
    if r.Err? {
      FirstFailureInOrder(steps, all, r.error);
    }
  }

  // ---------------------------------------------------------------- what a claim means

  /** The effect is bound to a work order that is known, clean and not finished. */
  predicate Workable(p: Projection, k: string) {
    && k in p.outbox && p.outbox[k].version == 2 && k in p.derivedIds
    && p.outbox[k].workOrder in p.workOrders
    && WorkOrderClean(p.workOrders[p.outbox[k].workOrder], p.outbox)
    && !Finished(p.workOrders[p.outbox[k].workOrder].status)
  }

  /** It is pending and belongs to the current attempt of its branch. */
  predicate CurrentPending(wo: WorkOrder, e: Effect) {
    e.branch in wo.branches && AttemptScopeOf(e, wo.branches[e.branch]) == Current && e.status == Pending
  }

  /**
   The planner offers a claim exactly when the effect is pending on the current attempt of an unfinished, clean
   work order and either forward work is clear, or the effect cancels a turn and cleanup is due.
   */
  lemma ClaimExactlyWhenClear(p: Projection, now: Time, claims: map<string, O.Token>, k: string)
    requires k in p.outbox && p.outbox[k].workOrder in p.workOrders
    requires NormalBranches(p.workOrders[p.outbox[k].workOrder])
    ensures var e := p.outbox[k];
            var wo := p.workOrders[e.workOrder];
            StepFor(p, now, claims, k) == Ok(Some(Do(e.id, Claim))) <==>
              && Workable(p, k) && CurrentPending(wo, e)
              && (ForwardClear(wo, p.outbox) || (e.kind == TurnCancel && CleanupDue(wo, p.outbox)))
  {
    var e := p.outbox[k];
    var wo := p.workOrders[e.workOrder];
    BoundClaim(e, wo, WorkOrderClean(wo, p.outbox), AutomationOf(wo, p.outbox), now, claims);
    if WorkOrderClean(wo, p.outbox) {
      AutomationMeans(wo, p.outbox);
    }
  }

  lemma BoundClaim(e: Effect, wo: WorkOrder, clean: bool, automation: Automation, now: Time,
                   claims: map<string, O.Token>)
    ensures BoundStep(e, wo, clean, automation, now, claims) == Ok(Some(Do(e.id, Claim))) <==>
              && clean && !Finished(wo.status) && CurrentPending(wo, e)
              && (automation == Runnable || (e.kind == TurnCancel && MayRunCleanup(automation)))
  {
  }

  /** The projection files work orders and branches under their own names. */
  predicate NormalProjection(p: Projection) {
    forall w :: w in p.workOrders ==> p.workOrders[w].id == w && NormalBranches(p.workOrders[w])
  }

  lemma CleanKeyIsId(p: Projection, k: string)
    requires NormalProjection(p) && k in p.outbox && p.outbox[k].workOrder in p.workOrders
    requires WorkOrderClean(p.workOrders[p.outbox[k].workOrder], p.outbox)
    ensures p.outbox[k].branch in p.workOrders[p.outbox[k].workOrder].branches
    ensures p.outbox[k].id == k
  {
    var wo := p.workOrders[p.outbox[k].workOrder];
    var b := wo.branches[p.outbox[k].branch];
    assert BranchClean(wo, b, p.outbox) && InBranch(wo, b, p.outbox, k);
    assert EntryClean(k, p.outbox[k], b);
  }

  /** The claim the planner returns is safe: the sole exception to a clear work order is turn-cancel cleanup. */
  lemma PlannedClaimIsSafe(p: Projection, now: Time, claims: map<string, O.Token>, selected: Option<string>, id: string)
    requires NormalProjection(p) && Chosen(Steps(p, now, claims, selected), Do(id, Claim))
    ensures Workable(p, id) && p.outbox[id].id == id
    ensures var wo := p.workOrders[p.outbox[id].workOrder];
            && CurrentPending(wo, p.outbox[id])
            && (ForwardClear(wo, p.outbox) || (p.outbox[id].kind == TurnCancel && CleanupDue(wo, p.outbox)))
  {
    var steps := Steps(p, now, claims, selected);
    var k :| k in steps && Offers(steps, k) && steps[k].value.value == Do(id, Claim);
    assert StepFor(p, now, claims, k) == Ok(Some(Do(p.outbox[k].id, Claim)));
    ClaimExactlyWhenClear(p, now, claims, k);
    CleanKeyIsId(p, k);
  }

  predicate OperatorOpen(wo: WorkOrder, a: string) {
    a in wo.attention && wo.attention[a].open && wo.attention[a].kind == PresendFailureAttention
  }

  /** The record names one of the work order's branches. */
  predicate BoundTo(wo: WorkOrder, a: string)
    requires a in wo.attention
  {
    wo.attention[a].branch.Some? && wo.attention[a].branch.value in wo.branches
  }

  /**
   When a forward claim is offered, no operator attention is open exactly when every open operator record names a
   branch of the work order: the snapshot rejects an unbound recovery record but never looks at an unbound operator
   record.
   */
  lemma OperatorsHoldExactlyWhenBound(p: Projection, now: Time, claims: map<string, O.Token>, k: string)
    requires k in p.outbox && p.outbox[k].workOrder in p.workOrders
    requires NormalBranches(p.workOrders[p.outbox[k].workOrder])
    requires p.outbox[k].kind != TurnCancel
    requires StepFor(p, now, claims, k) == Ok(Some(Do(p.outbox[k].id, Claim)))
    ensures var wo := p.workOrders[p.outbox[k].workOrder];
            (forall a :: a in wo.attention ==> !OperatorOpen(wo, a))
            <==> (forall a :: a in wo.attention && OperatorOpen(wo, a) ==> BoundTo(wo, a))
  {
    ClaimExactlyWhenClear(p, now, claims, k);
  }

  const WaitingBranch := Branch("B", 1, "D", "P", DispatchPending)
  const WaitingEffect := Effect(2, "E", "W", "B", 1, "D", ThreadCreate, Digest(ThreadCreateScope("P", "r", "h")),
                                Some(1), NoPredecessor, "P", "r", "h", Stage(None, None, None), true, Pending,
                                None, None, None)
  const UnboundRecord := Attention("A", true, None, PresendFailureAttention, None)

  lemma WaitingBranchIsClean(wo: WorkOrder, outbox: OutboxMap)
    requires wo == WorkOrder("W", Active, map["B" := WaitingBranch], map["A" := UnboundRecord])
    requires outbox == map["E" := WaitingEffect]
    ensures WorkOrderClean(wo, outbox) && Unencumbered(wo, outbox)
  {
    assert EntryClean("E", WaitingEffect, WaitingBranch);
    assert forall k :: k in outbox ==> k == "E";
    assert FollowsPredecessor(wo, WaitingBranch, outbox, WaitingEffect);
    assert BranchClean(wo, WaitingBranch, outbox);
  }

  /** So a claim is planned although an operator record is open: the record names no branch. */
  lemma UnboundOperatorAttentionIsIgnored(now: Time)
    ensures exists p, k, a ::
              && NormalProjection(p) && k in p.outbox && p.outbox[k].workOrder in p.workOrders
              && StepFor(p, now, map[], k) == Ok(Some(Do(k, Claim)))
              && OperatorOpen(p.workOrders[p.outbox[k].workOrder], a)
  {
    var wo := WorkOrder("W", Active, map["B" := WaitingBranch], map["A" := UnboundRecord]);
    var p := Projection(true, map["W" := wo], map["E" := WaitingEffect], {"E"});
    WaitingBranchIsClean(wo, p.outbox);
    ClaimExactlyWhenClear(p, now, map[], "E");
    assert NormalProjection(p) && p.outbox["E"].workOrder == "W" && p.workOrders["W"] == wo;
    assert StepFor(p, now, map[], "E") == Ok(Some(Do("E", Claim)));
    assert OperatorOpen(p.workOrders[p.outbox["E"].workOrder], "A");
  }

  // ---------------------------------------------------------------- the plan is a function of the projection

  lemma OfferNamesItsKey(p: Projection, now: Time, claims: map<string, O.Token>, selected: Option<string>, k: string)
    requires NormalProjection(p) && Offers(Steps(p, now, claims, selected), k)
    ensures Steps(p, now, claims, selected)[k].value.value.effect == k || Some(k) == selected
  {
    if selected.None? {
      assert StepFor(p, now, claims, k).Ok?;
      CleanKeyIsId(p, k);
    }
  }

  /** The step taken does not depend on the order in which the outbox is listed. */
  lemma PlanIsDetermined(p: Projection, now: Time, claims: map<string, O.Token>, selected: Option<string>,
                         c: Decision, d: Decision)
    requires NormalProjection(p)
    requires Chosen(Steps(p, now, claims, selected), c) && Chosen(Steps(p, now, claims, selected), d)
    ensures c == d
  {
    var steps := Steps(p, now, claims, selected);
    if !c.Idle? {
      var k :| k in steps && Offers(steps, k) && steps[k].value.value == c;
      var l :| l in steps && Offers(steps, l) && steps[l].value.value == d;
      Text.BeforeIsTotal(c.effect, d.effect);
      OfferNamesItsKey(p, now, claims, selected, k);
      OfferNamesItsKey(p, now, claims, selected, l);
    }
  }
}
