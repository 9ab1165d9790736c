/**
 What each answer of the planner means, said without the planner's own case analysis: in terms of the projection, of
 the events the projector would accept, and of the steps a reactor can take.
 */
module PlannerLaws {
  import opened Basics
  import opened Lifecycle
  import opened Planner
  import B = Boundary
  import O = Outbox
  import R = Reactor
  import Text

  // ---------------------------------------------------------------- the answer for one effect

  /** The effect's identity derives, and its work order is known, clean and has the effect's branch. */
  predicate Known(p: Projection, k: string) {
    && k in p.outbox && p.outbox[k].version == 2 && k in p.derivedIds
    && p.outbox[k].workOrder in p.workOrders
    && WorkOrderClean(p.workOrders[p.outbox[k].workOrder], p.outbox)
    && p.outbox[k].branch in p.workOrders[p.outbox[k].workOrder].branches
  }

  predicate Over(p: Projection, k: string)
    requires Known(p, k)
  {
    Finished(p.workOrders[p.outbox[k].workOrder].status)
  }

  predicate OfCurrentAttempt(p: Projection, k: string)
    requires Known(p, k)
  {
    AttemptScopeOf(p.outbox[k], p.workOrders[p.outbox[k].workOrder].branches[p.outbox[k].branch]) == Current
  }

  /** Only then does the effect's own status decide. */
  predicate Actionable(p: Projection, k: string) {
    Known(p, k) && !Over(p, k) && OfCurrentAttempt(p, k)
  }

  lemma BoundAnswers(e: Effect, wo: WorkOrder, clean: bool, automation: Automation, now: Time,
                     claims: map<string, O.Token>)
    ensures var step := BoundStep(e, wo, clean, automation, now, claims);
            var known := clean && e.branch in wo.branches;
            var current := known && AttemptScopeOf(e, wo.branches[e.branch]) == Current;
            && (step == Err(LifecycleInvalid) <==> !known)
            && (step == Ok(Some(Wait(e.id, WorkOrderTerminal, None))) <==> known && Finished(wo.status))
            && (step == Ok(Some(Wait(e.id, StaleAttempt, None))) <==> known && !Finished(wo.status) && !current)
            && (step == Err(LeaseMissing) <==>
                  && current && !Finished(wo.status) && e.lease.None? && (e.status == Claimed || e.status == Sending))
            && (step == Ok(None) <==> current && !Finished(wo.status) && !Unresolved(e.status))
            && step != Ok(Some(Wait(e.id, ReplayOnlyEffect, None)))
            && (step.Err? ==> step.error == LifecycleInvalid || step.error == LeaseMissing)
  {
  }

  /** When the planner stops over an effect, and with which error. */
  lemma FailureIsExact(p: Projection, now: Time, claims: map<string, O.Token>, k: string)
    requires k in p.outbox
    ensures StepFor(p, now, claims, k) == Err(IdentityInvalid) <==> p.outbox[k].version == 2 && k !in p.derivedIds
    ensures StepFor(p, now, claims, k) == Err(WorkOrderMissing) <==>
              p.outbox[k].version == 2 && k in p.derivedIds && p.outbox[k].workOrder !in p.workOrders
    ensures StepFor(p, now, claims, k) == Err(LifecycleInvalid) <==>
              && p.outbox[k].version == 2 && k in p.derivedIds && p.outbox[k].workOrder in p.workOrders
              && !Known(p, k)
    ensures StepFor(p, now, claims, k) == Err(LeaseMissing) <==>
              && Actionable(p, k) && p.outbox[k].lease.None?
              && (p.outbox[k].status == Claimed || p.outbox[k].status == Sending)
    ensures StepFor(p, now, claims, k) != Err(EffectNotFound)
  {
    if p.outbox[k].workOrder in p.workOrders {
      var wo := p.workOrders[p.outbox[k].workOrder];
      BoundAnswers(p.outbox[k], wo, WorkOrderClean(wo, p.outbox), AutomationOf(wo, p.outbox), now, claims);
    }
  }

  /** When the planner waits for an effect whatever its status. */
  lemma WaitIsExact(p: Projection, now: Time, claims: map<string, O.Token>, k: string)
    requires k in p.outbox
    ensures StepFor(p, now, claims, k) == Ok(Some(Wait(p.outbox[k].id, ReplayOnlyEffect, None))) <==>
              p.outbox[k].version != 2
    ensures StepFor(p, now, claims, k) == Ok(Some(Wait(p.outbox[k].id, WorkOrderTerminal, None))) <==>
              Known(p, k) && Over(p, k)
    ensures StepFor(p, now, claims, k) == Ok(Some(Wait(p.outbox[k].id, StaleAttempt, None))) <==>
              Known(p, k) && !Over(p, k) && !OfCurrentAttempt(p, k)
    ensures StepFor(p, now, claims, k) == Ok(None) <==> Actionable(p, k) && !Unresolved(p.outbox[k].status)
  {
    if p.outbox[k].workOrder in p.workOrders {
      var wo := p.workOrders[p.outbox[k].workOrder];
      BoundAnswers(p.outbox[k], wo, WorkOrderClean(wo, p.outbox), AutomationOf(wo, p.outbox), now, claims);
    }
  }

  /** A pending effect of the current attempt is claimed or waits for the lifecycle, and nothing else. */
  lemma PendingIsExact(p: Projection, now: Time, claims: map<string, O.Token>, k: string)
    requires Actionable(p, k) && p.outbox[k].status == Pending
    requires NormalBranches(p.workOrders[p.outbox[k].workOrder])
    ensures var e := p.outbox[k];
            var wo := p.workOrders[e.workOrder];
            StepFor(p, now, claims, k)
            == Ok(Some(if ForwardClear(wo, p.outbox) || (e.kind == TurnCancel && CleanupDue(wo, p.outbox))
                       then Do(e.id, Claim) else Wait(e.id, LifecycleBlocksClaim, None)))
  {
    AutomationMeans(p.workOrders[p.outbox[k].workOrder], p.outbox);
  }

  // ---------------------------------------------------------------- the planner and the projector

  function Named(s: O.Status): Status {
    match s
    case Pending => Pending
    case Claimed => Claimed
    case Sending => Sending
    case DeliveryUnknown => DeliveryUnknown
    case Delivered => Delivered
    case NotSent => NotSent
    case Cancelled => Cancelled
  }

  /** The planner's view of an effect is the projector's. */
  predicate Mirrors(e: Effect, s: O.EffectState) {
    e.status == Named(s.status) && e.lease == s.lease
  }

  /** The projector would accept the event now. */
  predicate Accepted(s: O.EffectState, ev: O.Event)
    requires !ev.Enqueued?
  {
    O.Move(s, ev).Some?
  }

  /** The answer is to wait for another run's claim. */
  predicate WaitsForClaim(step: Step) {
    step.Ok? && step.value.Some? && step.value.value.Wait? && step.value.value.reason == ClaimedByPriorRun
  }

  lemma StatusDecides(p: Projection, now: Time, claims: map<string, O.Token>, k: string)
    requires Actionable(p, k)
    ensures var automation := AutomationOf(p.workOrders[p.outbox[k].workOrder], p.outbox);
            StepFor(p, now, claims, k) == StatusStep(p.outbox[k], automation, now, claims)
  {
  }

  lemma ReleasesAreAcceptable(e: Effect, automation: Automation, now: Time, claims: map<string, O.Token>, k: string,
                              s: O.EffectState)
    requires Mirrors(e, s) && O.Fenced(s) && s.updatedAt <= now
    ensures StatusStep(e, automation, now, claims) == Ok(Some(Do(e.id, Requeue))) <==>
              s.lease.Some? && Accepted(s, O.Requeued(k, s.lease.value.token, now))
    ensures StatusStep(e, automation, now, claims) == Ok(Some(Do(e.id, ExpireSend))) <==>
              s.lease.Some? && Accepted(s, O.SendExpired(k, s.lease.value.token, now))
    ensures StatusStep(e, automation, now, claims) == Ok(Some(Do(e.id, ProbeDeliveryUnknown))) <==>
              Accepted(s, O.Settled(k, O.Delivered, None, now))
  {
  }

  lemma SendsAreAcceptable(e: Effect, automation: Automation, now: Time, claims: map<string, O.Token>, k: string,
                           s: O.EffectState)
    requires Mirrors(e, s) && O.Fenced(s) && s.updatedAt <= now
    ensures StatusStep(e, automation, now, claims) == Ok(Some(Do(e.id, Send))) <==>
              e.id in claims && Accepted(s, O.SendBegun(k, claims[e.id], now))
    ensures StatusStep(e, automation, now, claims) == Ok(Some(Do(e.id, LookupWorkerResult))) <==>
              s.lease.Some? && Accepted(s, O.Settled(k, O.Delivered, Some(s.lease.value.token), now))
    ensures WaitsForClaim(StatusStep(e, automation, now, claims)) <==>
              && s.lease.Some? && Accepted(s, O.SendBegun(k, s.lease.value.token, now))
              && !(e.id in claims && claims[e.id] == s.lease.value.token)
    ensures WaitsForClaim(StatusStep(e, automation, now, claims)) ==>
              StatusStep(e, automation, now, claims).value.value.notBefore == Some(s.lease.value.expiresAt)
  {
  }

  /**
   On an effect of the current attempt each action is planned exactly when the projector would accept, at that very
   time, the event the action leads to: the requeue and the expiry under the token held, the send under the token this
   run claimed, and for a lookup or a probe the settlement it may find.
   */
  lemma ActionsAreAcceptable(p: Projection, now: Time, claims: map<string, O.Token>, k: string, s: O.EffectState)
    requires Actionable(p, k) && Mirrors(p.outbox[k], s) && O.Fenced(s) && s.updatedAt <= now
    ensures StepFor(p, now, claims, k) == Ok(Some(Do(p.outbox[k].id, Requeue))) <==>
              s.lease.Some? && Accepted(s, O.Requeued(k, s.lease.value.token, now))
    ensures StepFor(p, now, claims, k) == Ok(Some(Do(p.outbox[k].id, ExpireSend))) <==>
              s.lease.Some? && Accepted(s, O.SendExpired(k, s.lease.value.token, now))
    ensures StepFor(p, now, claims, k) == Ok(Some(Do(p.outbox[k].id, Send))) <==>
              p.outbox[k].id in claims && Accepted(s, O.SendBegun(k, claims[p.outbox[k].id], now))
    ensures StepFor(p, now, claims, k) == Ok(Some(Do(p.outbox[k].id, LookupWorkerResult))) <==>
              s.lease.Some? && Accepted(s, O.Settled(k, O.Delivered, Some(s.lease.value.token), now))
    ensures StepFor(p, now, claims, k) == Ok(Some(Do(p.outbox[k].id, ProbeDeliveryUnknown))) <==>
              Accepted(s, O.Settled(k, O.Delivered, None, now))
  {
    var e, wo := p.outbox[k], p.workOrders[p.outbox[k].workOrder];
    StatusDecides(p, now, claims, k);
    ReleasesAreAcceptable(e, AutomationOf(wo, p.outbox), now, claims, k, s);
    SendsAreAcceptable(e, AutomationOf(wo, p.outbox), now, claims, k, s);
  }

  /** A live claim that is not this run's own is waited out, until its lease expires. */
  lemma ForeignClaimIsWaitedOut(p: Projection, now: Time, claims: map<string, O.Token>, k: string, s: O.EffectState)
    requires Actionable(p, k) && Mirrors(p.outbox[k], s) && O.Fenced(s) && s.updatedAt <= now
    ensures WaitsForClaim(StepFor(p, now, claims, k)) <==>
              && s.lease.Some? && Accepted(s, O.SendBegun(k, s.lease.value.token, now))
              && !(p.outbox[k].id in claims && claims[p.outbox[k].id] == s.lease.value.token)
    ensures WaitsForClaim(StepFor(p, now, claims, k)) ==>
              StepFor(p, now, claims, k).value.value.notBefore == Some(s.lease.value.expiresAt)
  {
    StatusDecides(p, now, claims, k);
    SendsAreAcceptable(p.outbox[k], AutomationOf(p.workOrders[p.outbox[k].workOrder], p.outbox), now, claims, k, s);
  }

  lemma StatusByFields(e: Effect, automation: Automation, now: Time, claims: map<string, O.Token>)
    ensures StatusStep(e, automation, now, claims) == Ok(Some(Do(e.id, Send))) <==>
              && e.status == Claimed && e.lease.Some? && now < e.lease.value.expiresAt
              && e.id in claims && claims[e.id] == e.lease.value.token
    ensures StatusStep(e, automation, now, claims) == Ok(Some(Do(e.id, Requeue))) <==>
              e.status == Claimed && e.lease.Some? && e.lease.value.expiresAt <= now
    ensures StatusStep(e, automation, now, claims) == Ok(Some(Do(e.id, Claim))) ==> e.status == Pending
  {
  }

  /** The actions that write to the journal, by the fields of the effect. */
  lemma MutationsByFields(p: Projection, now: Time, claims: map<string, O.Token>, k: string)
    requires Actionable(p, k)
    ensures StepFor(p, now, claims, k) == Ok(Some(Do(p.outbox[k].id, Send))) <==>
              && p.outbox[k].status == Claimed && p.outbox[k].lease.Some? && now < p.outbox[k].lease.value.expiresAt
              && p.outbox[k].id in claims && claims[p.outbox[k].id] == p.outbox[k].lease.value.token
    ensures StepFor(p, now, claims, k) == Ok(Some(Do(p.outbox[k].id, Requeue))) <==>
              p.outbox[k].status == Claimed && p.outbox[k].lease.Some? && p.outbox[k].lease.value.expiresAt <= now
    ensures StepFor(p, now, claims, k) == Ok(Some(Do(p.outbox[k].id, Claim))) ==> p.outbox[k].status == Pending
  {
    StatusDecides(p, now, claims, k);
    StatusByFields(p.outbox[k], AutomationOf(p.workOrders[p.outbox[k].workOrder], p.outbox), now, claims);
  }

  /** A planned claim finds the effect unclaimed: any token of the next generation would be accepted. */
  lemma PlannedClaimIsAcceptable(p: Projection, now: Time, claims: map<string, O.Token>, k: string, s: O.EffectState,
                                 leaseId: O.LeaseId, owner: string)
    requires Actionable(p, k) && Mirrors(p.outbox[k], s) && O.Fenced(s) && s.updatedAt <= now && s.leaseMs > 0
    requires StepFor(p, now, claims, k) == Ok(Some(Do(p.outbox[k].id, Claim)))
    ensures var token := O.Token(leaseId, owner, s.leaseGeneration + 1);
            Accepted(s, O.ClaimedBy(k, O.Lease(token, now, now, now + s.leaseMs), now))
  {
    MutationsByFields(p, now, claims, k);
    PendingIsClaimable(s, k, now, leaseId, owner);
  }

  lemma PendingIsClaimable(s: O.EffectState, k: string, now: Time, leaseId: O.LeaseId, owner: string)
    requires O.Fenced(s) && s.updatedAt <= now && s.leaseMs > 0
    ensures var token := O.Token(leaseId, owner, s.leaseGeneration + 1);
            Accepted(s, O.ClaimedBy(k, O.Lease(token, now, now, now + s.leaseMs), now)) <==> s.status == O.Pending
  {
  }

  // ---------------------------------------------------------------- the planner and the reactor

  /** The reactor `run` can take the planning step now. */
  ghost predicate Enabled(cfg: R.Config, run: O.RunId, j: B.Journal, r: R.Reactor, step: R.Step) {
    exists r' :: R.ReactorStep(cfg, run, j, r, step, j, r', [])
  }

  lemma SendIsEnabled(cfg: R.Config, run: O.RunId, j: B.Journal, r: R.Reactor, k: string, revision: nat, now: Time)
    requires k in R.Projection(j)
    ensures var s := R.Projection(j)[k];
            Enabled(cfg, run, j, r, R.PlanSend(k, revision, now)) <==>
              && r.phase.Idle? && s.status == O.Claimed && s.lease.Some? && now < s.lease.value.expiresAt
              && k in r.claims && r.claims[k] == s.lease.value.token
  {
    var s := R.Projection(j)[k];
    if s.lease.Some? {
      var token := s.lease.value.token;
      var call := R.InternalCall(cfg, B.SendId(k, token), B.SendBeginAction(k, token), revision);
      var next := r.(phase := R.BeginningSend(k, token, call));
      var mine := k in r.claims && r.claims[k] == token;
      assert r.phase.Idle? && s.status == O.Claimed && now < s.lease.value.expiresAt && mine
          ==> R.ReactorStep(cfg, run, j, r, R.PlanSend(k, revision, now), j, next, []);
    }
  }

  lemma RequeueIsEnabled(cfg: R.Config, run: O.RunId, j: B.Journal, r: R.Reactor, k: string, revision: nat, now: Time)
    requires k in R.Projection(j)
    ensures var s := R.Projection(j)[k];
            Enabled(cfg, run, j, r, R.PlanRequeue(k, revision, now)) <==>
              r.phase.Idle? && s.status == O.Claimed && s.lease.Some? && s.lease.value.expiresAt <= now
  {
    var s := R.Projection(j)[k];
    if s.lease.Some? {
      var token := s.lease.value.token;
      var call := R.InternalCall(cfg, B.RequeueId(k, token), B.RequeueAction(k, token), revision);
      var next := r.(phase := R.Requeueing(k, call));
      assert r.phase.Idle? && s.status == O.Claimed && s.lease.value.expiresAt <= now
          ==> R.ReactorStep(cfg, run, j, r, R.PlanRequeue(k, revision, now), j, next, []);
    }
  }

  lemma ClaimIsEnabled(cfg: R.Config, run: O.RunId, j: B.Journal, r: R.Reactor, k: string, revision: nat)
    requires k in R.Projection(j)
    ensures Enabled(cfg, run, j, r, R.PlanClaim(k, revision)) <==>
              r.phase.Idle? && R.Projection(j)[k].status == O.Pending
  {
    var token := R.ClaimToken(cfg, run, k, R.Projection(j)[k]);
    var action := B.ClaimAction(k, token.leaseId, token.owner);
    var call := R.InternalCall(cfg, B.ClaimId(run, k, token.generation), action, revision);
    var next := r.(phase := R.Claiming(k, token, call));
    assert r.phase.Idle? && R.Projection(j)[k].status == O.Pending
        ==> R.ReactorStep(cfg, run, j, r, R.PlanClaim(k, revision), j, next, []);
  }

  lemma SendFollowsPlan(cfg: R.Config, run: O.RunId, j: B.Journal, r: R.Reactor, p: Projection, k: string,
                        revision: nat, now: Time)
    requires Actionable(p, k) && p.outbox[k].id == k
    requires k in R.Projection(j) && Mirrors(p.outbox[k], R.Projection(j)[k])
    ensures Enabled(cfg, run, j, r, R.PlanSend(k, revision, now)) <==>
              r.phase.Idle? && StepFor(p, now, r.claims, k) == Ok(Some(Do(k, Send)))
  {
    MutationsByFields(p, now, r.claims, k);
    SendIsEnabled(cfg, run, j, r, k, revision, now);
  }

  lemma RequeueFollowsPlan(cfg: R.Config, run: O.RunId, j: B.Journal, r: R.Reactor, p: Projection, k: string,
                           revision: nat, now: Time)
    requires Actionable(p, k) && p.outbox[k].id == k
    requires k in R.Projection(j) && Mirrors(p.outbox[k], R.Projection(j)[k])
    ensures Enabled(cfg, run, j, r, R.PlanRequeue(k, revision, now)) <==>
              r.phase.Idle? && StepFor(p, now, r.claims, k) == Ok(Some(Do(k, Requeue)))
  {
    MutationsByFields(p, now, r.claims, k);
    RequeueIsEnabled(cfg, run, j, r, k, revision, now);
  }

  lemma ClaimFollowsPlan(cfg: R.Config, run: O.RunId, j: B.Journal, r: R.Reactor, p: Projection, k: string,
                         revision: nat, now: Time)
    requires Actionable(p, k) && p.outbox[k].id == k
    requires k in R.Projection(j) && Mirrors(p.outbox[k], R.Projection(j)[k])
    ensures r.phase.Idle? && StepFor(p, now, r.claims, k) == Ok(Some(Do(k, Claim))) ==>
              Enabled(cfg, run, j, r, R.PlanClaim(k, revision))
  {
    MutationsByFields(p, now, r.claims, k);
    ClaimIsEnabled(cfg, run, j, r, k, revision);
  }

  /** An idle reactor can begin a send or a requeue exactly when its planner says so, and a claim if it does. */
  lemma ReactorFollowsPlan(cfg: R.Config, run: O.RunId, j: B.Journal, r: R.Reactor, p: Projection, k: string,
                           revision: nat, now: Time)
    requires Actionable(p, k) && p.outbox[k].id == k
    requires k in R.Projection(j) && Mirrors(p.outbox[k], R.Projection(j)[k])
    ensures Enabled(cfg, run, j, r, R.PlanSend(k, revision, now)) <==>
              r.phase.Idle? && StepFor(p, now, r.claims, k) == Ok(Some(Do(k, Send)))
    ensures Enabled(cfg, run, j, r, R.PlanRequeue(k, revision, now)) <==>
              r.phase.Idle? && StepFor(p, now, r.claims, k) == Ok(Some(Do(k, Requeue)))
    ensures r.phase.Idle? && StepFor(p, now, r.claims, k) == Ok(Some(Do(k, Claim))) ==>
              Enabled(cfg, run, j, r, R.PlanClaim(k, revision))
  {
    SendFollowsPlan(cfg, run, j, r, p, k, revision, now);
    RequeueFollowsPlan(cfg, run, j, r, p, k, revision, now);
    ClaimFollowsPlan(cfg, run, j, r, p, k, revision, now);
  }

  // ---------------------------------------------------------------- the choice between actions

  predicate OffersVerb(steps: map<string, Step>, v: Verb) {
    exists k :: k in steps && Offers(steps, k) && steps[k].value.value.Do? && steps[k].value.value.verb == v
  }

  /** Work that releases an effect: an expired lease, or a delivery that is not known. */
  predicate OffersRelease(steps: map<string, Step>) {
    OffersVerb(steps, Requeue) || OffersVerb(steps, ExpireSend) || OffersVerb(steps, ProbeDeliveryUnknown)
  }

  predicate SameTurn(v: Verb, w: Verb) {
    var release := {Requeue, ExpireSend, ProbeDeliveryUnknown};
    v == w || (v in release && w in release)
  }

  /**
   A send comes first, then a release, then a claim; a lookup comes last. Among actions of the same turn the effect
   id decides.
   */
  lemma ActionOrder(steps: map<string, Step>, id: string, v: Verb)
    requires Proper(steps) && Chosen(steps, Do(id, v))
    ensures OffersVerb(steps, v)
    ensures v == Send <==> OffersVerb(steps, Send)
    ensures v in {Requeue, ExpireSend, ProbeDeliveryUnknown} <==> !OffersVerb(steps, Send) && OffersRelease(steps)
    ensures v == Claim <==> !OffersVerb(steps, Send) && !OffersRelease(steps) && OffersVerb(steps, Claim)
    ensures forall k :: k in steps && Offers(steps, k) && steps[k].value.value.Do? ==>
              SameTurn(v, steps[k].value.value.verb) ==> Text.AtMost(id, steps[k].value.value.effect)
  {
    var k :| k in steps && Offers(steps, k) && steps[k].value.value == Do(id, v);
    forall l | l in steps && Offers(steps, l) && steps[l].value.value.Do?
      ensures !Sooner(steps[l].value.value, Do(id, v))
    {
    }
    forall l | l in steps && Offers(steps, l) && steps[l].value.value.Do? && SameTurn(v, steps[l].value.value.verb)
      ensures Text.AtMost(id, steps[l].value.value.effect)
    {
      Text.BeforeIsTotal(id, steps[l].value.value.effect);
    }
  }

  /**
   A wait is chosen only when no action is offered, and then the one that ends first; those without an end come last.
   */
  lemma WaitOrder(steps: map<string, Step>, id: string, why: WaitReason, until: Option<Time>)
    requires Proper(steps) && Chosen(steps, Wait(id, why, until))
    ensures forall k :: k in steps && Offers(steps, k) ==> steps[k].value.value.Wait?
    ensures forall k :: k in steps && Offers(steps, k) && steps[k].value.value.notBefore.Some? ==>
              && until.Some? && until.value <= steps[k].value.value.notBefore.value
              && (until == steps[k].value.value.notBefore ==> Text.AtMost(id, steps[k].value.value.effect))
    ensures until.None? ==> forall k :: k in steps && Offers(steps, k) ==> Text.AtMost(id, steps[k].value.value.effect)
  {
    forall k | k in steps && Offers(steps, k)
      ensures !Sooner(steps[k].value.value, Wait(id, why, until))
      ensures Text.AtMost(id, steps[k].value.value.effect) || Text.Before(steps[k].value.value.effect, id)
    {
      Text.BeforeIsTotal(id, steps[k].value.value.effect);
    }
  }
}
