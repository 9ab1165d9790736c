/**
 What each capacity event does to the record of its scope, said without the update's own case analysis: when the
 circuit trips, as a number of failures in the ledger, and where an open circuit comes from.
 */
module CapacityLaws {
  import opened Basics
  import opened Capacity

  // ---------------------------------------------------------------- what an event touches

  /** Where the record of the event's scope is before the event, or will be. */
  function At(ledger: Ledger, e: Event): nat {
    ScopeIndex(ledger.records, ScopeKey(e))
  }

  /** The record of the event's scope after the event. */
  function Later(ledger: Ledger, e: Event): Record {
    if At(ledger, e) < |After(ledger, e).records| then After(ledger, e).records[At(ledger, e)] else Prior(ledger, e)
  }

  /** The dispatch the event is about, in a list of dispatches. */
  function Own(dispatches: seq<Dispatch>, e: Event): Option<Dispatch> {
    var k := DispatchIndex(dispatches, e.dispatch);
    if k < |dispatches| then Some(dispatches[k]) else None
  }

  /** An event is about the record of one scope, which it adds when it is missing. */
  lemma RecordsAreLocal(ledger: Ledger, e: Event)
    ensures At(ledger, e) < |After(ledger, e).records| && Later(ledger, e).scope == ScopeKey(e)
    ensures |After(ledger, e).records| == |ledger.records| + (if At(ledger, e) < |ledger.records| then 0 else 1)
    ensures forall i :: 0 <= i < |ledger.records| && i != At(ledger, e) ==>
              After(ledger, e).records[i] == ledger.records[i]
    ensures At(ledger, e) < |ledger.records| <==>
              exists i :: 0 <= i < |ledger.records| && ledger.records[i].scope == ScopeKey(e)
    ensures Prior(ledger, e) == if At(ledger, e) < |ledger.records| then ledger.records[At(ledger, e)]
                                else NewRecord(ScopeKey(e))
  {
    ChangedKeepsScope(ledger, e);
  }

  lemma ChangedKeepsScope(ledger: Ledger, e: Event)
    ensures Noted(ledger, e).scope == ScopeKey(e) && Noted(ledger, e).observedAt == Some(e.at)
  {
  }

  /** And about at most one dispatch. */
  lemma DispatchesAreLocal(ledger: Ledger, e: Event)
    ensures |ledger.dispatches| <= |After(ledger, e).dispatches| <= |ledger.dispatches| + 1
    ensures forall i :: 0 <= i < |ledger.dispatches| && ledger.dispatches[i].id != e.dispatch ==>
              After(ledger, e).dispatches[i] == ledger.dispatches[i]
    ensures After(ledger, e).policy == ledger.policy && After(ledger, e).updatedAt == Some(e.at)
  {
    DispatchesAre(ledger, e);
    EnsuredIsOwn(ledger.dispatches, e);
  }

  lemma DispatchesAre(ledger: Ledger, e: Event)
    ensures After(ledger, e).dispatches == DispatchesAfter(ledger, e)
  {
  }

  lemma EnsuredIsOwn(dispatches: seq<Dispatch>, e: Event)
    ensures EnsuredDispatches(dispatches, e)[DispatchIndex(dispatches, e.dispatch)].id == e.dispatch
  {
  }

  // ---------------------------------------------------------------- the trip

  /** The dispatch failed before its turn started, on the same target and in the same way, inside the window. */
  predicate SameFailure(d: Dispatch, own: Dispatch, e: Event, policy: Policy) {
    && (d.task, d.agent, d.thread) == (own.task, own.agent, own.thread)
    && d.state == PrestartError && d.fingerprint == Some(e.fingerprint)
    && e.at <= d.queuedAt + policy.correlationWindow * 60_000
  }

  /** Which dispatches of a list failed so. */
  function Failures(dispatches: seq<Dispatch>, own: Dispatch, e: Event, policy: Policy): set<nat> {
    set i: nat | i < |dispatches| && SameFailure(dispatches[i], own, e, policy)
  }

  lemma {:induction false} CountIsCardinality(dispatches: seq<Dispatch>, own: Dispatch, e: Event, policy: Policy)
    requires own.fingerprint == Some(e.fingerprint)
    ensures Correlated(dispatches, own, e.at - policy.correlationWindow * MINUTE)
            == |Failures(dispatches, own, e, policy)|
  {
    if dispatches != [] {
      var n := |dispatches| - 1;
      CountIsCardinality(dispatches[..n], own, e, policy);
      var before, all := Failures(dispatches[..n], own, e, policy), Failures(dispatches, own, e, policy);
      assert all == if SameFailure(dispatches[n], own, e, policy) then before + {n} else before;
    }
  }

  lemma OwnStaysInPlace(ledger: Ledger, e: Event)
    requires e.kind != UsageLimitEvent
    ensures var k, all := DispatchIndex(ledger.dispatches, e.dispatch), EnsuredDispatches(ledger.dispatches, e);
            && Own(DispatchesAfter(ledger, e), e) == Some(DispatchAfter(all[k], e))
            && DispatchAfter(all[k], e).id == e.dispatch
  {
    var k, all, next := DispatchIndex(ledger.dispatches, e.dispatch), EnsuredDispatches(ledger.dispatches, e),
                        DispatchesAfter(ledger, e);
    EnsuredIsOwn(ledger.dispatches, e);
    assert next[k].id == e.dispatch && forall i :: 0 <= i < k ==> next[i] == all[i] && all[i].id != e.dispatch;
    var l := DispatchIndex(next, e.dispatch);
    assert l == k;
  }

  /** The event's own dispatch keeps its target and its queueing, and records what the event says of it. */
  lemma OwnDispatchRecords(ledger: Ledger, e: Event)
    requires e.kind != UsageLimitEvent
    ensures Own(After(ledger, e).dispatches, e).Some?
    ensures var prior := if Own(ledger.dispatches, e).Some? then Own(ledger.dispatches, e).value else NewDispatch(e);
            var own := Own(After(ledger, e).dispatches, e).value;
            && own == prior.(state := own.state, turnStartedAt := own.turnStartedAt, fingerprint := own.fingerprint)
            && own.state == (match e.kind
                             case DispatchAcceptedEvent => DispatchAccepted
                             case PrestartErrorEvent => PrestartError
                             case TurnStartedEvent => TurnStarted
                             case ProgressEvent => ProgressObserved
                             case ReportEvent => ReportProduced
                             case StartTimeoutEvent => StartTimeout
                             case _ => prior.state)
            && own.turnStartedAt == (if e.kind == TurnStartedEvent then Some(e.at) else prior.turnStartedAt)
            && own.fingerprint == (if e.kind == PrestartErrorEvent then Some(e.fingerprint) else prior.fingerprint)
  {
    DispatchesAre(ledger, e);
    OwnStaysInPlace(ledger, e);
  }

  predicate TripOf(p: Policy, prior: Record, e: Event, failures: nat, r: Record) {
    && r.failures == failures
    && (failures >= p.retryLimit ==>
          && r.state == Unavailable && r.circuit.state == Open
          && r.circuit.generation == prior.circuit.generation + 1 && r.circuit.openedAt == Some(e.at)
          && r.circuit.nextProbe == Some(e.at + p.firstBackoff * 60_000)
          && r.expiresAt == Some(e.at + p.unavailableTtl * 60_000))
    && (failures < p.retryLimit ==>
          && r.state == SuspectedUnavailable && r.circuit == prior.circuit.(state := HalfOpen)
          && r.expiresAt == Some(e.at + p.suspectedTtl * 60_000))
  }

  lemma RecordTrips(p: Policy, prior: Record, e: Event, failures: nat, started: bool, r: Record)
    requires e.kind == PrestartErrorEvent
    requires r.(evidence := []) == RecordAfter(p, prior, e, failures, started).(evidence := [])
    ensures TripOf(p, prior, e, failures, r)
  {
    assert r == RecordAfter(p, prior, e, failures, started).(evidence := r.evidence);
  }

  /** How many failures like the event's own a list of dispatches holds. */
  function FailureCount(dispatches: seq<Dispatch>, e: Event, policy: Policy): nat {
    if Own(dispatches, e).None? then 0 else |Failures(dispatches, Own(dispatches, e).value, e, policy)|
  }

  lemma FailuresAreCounted(ledger: Ledger, e: Event)
    requires e.kind == PrestartErrorEvent
    ensures FailureCount(DispatchesAfter(ledger, e), e, ledger.policy) == FailuresCorrelated(ledger, e)
  {
    OwnStaysInPlace(ledger, e);
    CountIsCardinality(DispatchesAfter(ledger, e), Own(DispatchesAfter(ledger, e), e).value, e, ledger.policy);
  }

  /**
   A pre-start error opens the circuit, one generation on, exactly when the ledger then holds as many such failures as
   the retry limit; otherwise the record is under suspicion and the circuit half open.
   */
  lemma TripsExactly(ledger: Ledger, e: Event)
    requires e.kind == PrestartErrorEvent
    ensures TripOf(ledger.policy, Prior(ledger, e), e, FailureCount(After(ledger, e).dispatches, e, ledger.policy),
                   Later(ledger, e))
  {
    DispatchesAre(ledger, e);
    FailuresAreCounted(ledger, e);
    LaterIs(ledger, e);
    RecordTrips(ledger.policy, Prior(ledger, e), e, FailuresCorrelated(ledger, e), TurnHasStarted(ledger, e),
                Later(ledger, e));
  }

  /** Apart from the evidence it cites, the record is updated from what it was. */
  lemma LaterIs(ledger: Ledger, e: Event)
    ensures Later(ledger, e).(evidence := [])
            == RecordAfter(ledger.policy, Prior(ledger, e), e, FailuresCorrelated(ledger, e),
                           TurnHasStarted(ledger, e)).(evidence := [])
    ensures Later(ledger, e) == Noted(ledger, e)
  {
  }

  lemma RecordEffects(p: Policy, prior: Record, e: Event, started: bool, r: Record)
    requires e.kind != PrestartErrorEvent && r.(evidence := []) == RecordAfter(p, prior, e, 0, started).(evidence := [])
    ensures EffectOf(p, prior, e, r)
  {
    var computed := RecordAfter(p, prior, e, 0, started);
    assert r == computed.(evidence := r.evidence);
  }

  /** What an event other than a pre-start error and progress does to state and circuit. */
  predicate EffectOf(p: Policy, prior: Record, e: Event, r: Record) {
    match e.kind
    case UsageLimitEvent =>
      && r.state == Cooldown && r.cause == UsageWindowExhausted && r.circuit.state == Open
      && (r.classification == UserConfirmed <==> e.byUser) && r.confirmedAt == Some(e.at)
      && r.circuit.generation == prior.circuit.generation + 1 && r.circuit.nextProbe == r.cooldownUntil
      && r.cooldownUntil == (if e.resetAt.Some? then e.resetAt else Some(e.at + p.firstBackoff * 60_000))
    case TurnStartedEvent =>
      && r.state == Available && r.circuit == prior.circuit.(state := Closed, reason := None, nextProbe := None)
      && r.failures == 0 && r.expiresAt == Some(e.at + p.availableTtl * 60_000)
    case DispatchQueuedEvent =>
      if prior.state == Unknown then r.state == Probing && r.circuit == prior.circuit.(state := HalfOpen)
      else r.state == prior.state && r.circuit == prior.circuit
    case DispatchAcceptedEvent =>
      && r.state == (if prior.state == Unknown then Probing else prior.state)
      && (r.circuit.state == Closed <==> prior.circuit.state == Closed)
      && r.circuit == prior.circuit.(state := r.circuit.state) && r.circuit.state != Open
    case StartTimeoutEvent =>
      r.state == Unknown && r.level == E0 && r.circuit == prior.circuit.(state := HalfOpen)
    case ReportEvent => r.state == prior.state && r.circuit == prior.circuit
    case _ => true
  }

  lemma EventEffects(ledger: Ledger, e: Event)
    requires e.kind != PrestartErrorEvent
    ensures EffectOf(ledger.policy, Prior(ledger, e), e, Later(ledger, e))
  {
    LaterIs(ledger, e);
    RecordEffects(ledger.policy, Prior(ledger, e), e, TurnHasStarted(ledger, e), Later(ledger, e));
  }

  predicate Started(dispatches: seq<Dispatch>, e: Event) {
    Own(dispatches, e).Some? && Own(dispatches, e).value.turnStartedAt.Some?
  }

  lemma StartedMeans(ledger: Ledger, e: Event)
    requires e.kind == ProgressEvent
    ensures Started(After(ledger, e).dispatches, e) <==> TurnHasStarted(ledger, e)
  {
    DispatchesAre(ledger, e);
    OwnStaysInPlace(ledger, e);
  }

  /** Progress proves capacity only for a dispatch whose turn has started, or on a closed circuit. */
  lemma ProgressProves(ledger: Ledger, e: Event)
    requires e.kind == ProgressEvent
    ensures var r, prior := Later(ledger, e), Prior(ledger, e);
            if Started(After(ledger, e).dispatches, e) || prior.circuit.state == Closed
            then r.state == Available && r.circuit == prior.circuit.(state := Closed, reason := None, nextProbe := None)
            else r == prior.(observedAt := Some(e.at))
  {
    StartedMeans(ledger, e);
    LaterIs(ledger, e);
  }

  /** The event tells something about capacity: a failure, a usage limit, or progress that proves it. */
  predicate Tells(ledger: Ledger, e: Event) {
    || e.kind == PrestartErrorEvent || e.kind == UsageLimitEvent || e.kind == TurnStartedEvent
    || (e.kind == ProgressEvent
        && (Prior(ledger, e).circuit.state == Closed || Started(After(ledger, e).dispatches, e)))
  }

  /** Evidence is added exactly by an event that tells something; it repeats the record, which then cites it. */
  lemma EvidenceIsExact(ledger: Ledger, e: Event)
    ensures |After(ledger, e).evidence| == |ledger.evidence| + (if Tells(ledger, e) then 1 else 0)
    ensures Tells(ledger, e) ==>
              var r, added := Later(ledger, e), After(ledger, e).evidence[|ledger.evidence|];
              && added == Evidence(|ledger.evidence| + 1, r.level, r.classification, e.at, r.expiresAt)
              && r.evidence == Prior(ledger, e).evidence + [added.id]
    ensures !Tells(ledger, e) ==> Later(ledger, e).evidence == Prior(ledger, e).evidence
  {
    TellsIsAdds(ledger, e);
    LaterIs(ledger, e);
  }

  lemma TellsIsAdds(ledger: Ledger, e: Event)
    ensures Tells(ledger, e) <==> AddsTo(ledger, e)
  {
    if e.kind == ProgressEvent {
      StartedMeans(ledger, e);
    }
  }

  // ---------------------------------------------------------------- the passing of time

  /** What has expired, and what becomes of it. */
  lemma ExpiryIsExact(r: Record, now: Time)
    ensures var next := ExpiredRecord(r, now);
            var cooled := r.state == Cooldown && r.cooldownUntil.Some? && r.cooldownUntil.value <= now;
            var stale := r.expiresAt.Some? && r.expiresAt.value <= now
                         && r.state in {Available, SuspectedUnavailable, Unavailable};
            && (cooled ==> next == r.(state := Probing, circuit := next.circuit) && next.circuit.state == HalfOpen
                           && next.circuit.probes == r.circuit.probes + 1 && next.circuit.nextProbe.None?)
            && (stale ==> next.state == Unknown && next.level == E0 && next.classification == Unconfirmed
                          && (next.circuit.state == Open <==> r.circuit.state == Open) && next.circuit.state != Closed)
            && (!cooled && !stale ==> next == r)
  {
  }

  // ---------------------------------------------------------------- where an open circuit comes from

  /** The circuit of the scope is open. */
  ghost predicate OpenIn(ledger: Ledger, scope: string) {
    exists i :: 0 <= i < |ledger.records| && ledger.records[i].scope == scope && ledger.records[i].circuit.state == Open
  }

  /** The event opens the circuit of its scope: a confirmed usage limit, or a failure that reaches the retry limit. */
  predicate Opens(ledger: Ledger, e: Event) {
    || e.kind == UsageLimitEvent
    || (e.kind == PrestartErrorEvent
        && FailureCount(After(ledger, e).dispatches, e, ledger.policy) >= ledger.policy.retryLimit)
  }

  /** The step opens the circuit of the scope. */
  predicate OpensScope(ledger: Ledger, step: Step, scope: string) {
    step.Happens? && ScopeKey(step.e) == scope && Opens(ledger, step.e)
  }

  /** A circuit that is open after an event was open before, or the event opened it. */
  lemma OpenedByEvent(ledger: Ledger, e: Event, scope: string)
    requires UniqueScopes(ledger.records) && OpenIn(After(ledger, e), scope)
    ensures OpenIn(ledger, scope) || (ScopeKey(e) == scope && Opens(ledger, e))
  {
    RecordsAreLocal(ledger, e);
    var next := After(ledger, e).records;
    var i :| 0 <= i < |next| && next[i].scope == scope && next[i].circuit.state == Open;
    if i != At(ledger, e) {
      assert i < |ledger.records| && ledger.records[i] == next[i];
    } else {
      OpenedAtOwn(ledger, e);
    }
  }

  lemma OpenedAtOwn(ledger: Ledger, e: Event)
    requires Later(ledger, e).circuit.state == Open && At(ledger, e) < |After(ledger, e).records|
    ensures OpenIn(ledger, ScopeKey(e)) || Opens(ledger, e)
  {
    if e.kind == PrestartErrorEvent {
      TripsExactly(ledger, e);
    } else if e.kind == ProgressEvent {
      ProgressProves(ledger, e);
    } else {
      EventEffects(ledger, e);
    }
    if Prior(ledger, e).circuit.state == Open {
      assert At(ledger, e) < |ledger.records| && Prior(ledger, e).scope == ScopeKey(e);
    }
  }

  lemma OpenedByStep(ledger: Ledger, step: Step, scope: string)
    requires UniqueScopes(ledger.records) && OpenIn(Updated(ledger, step), scope)
    ensures OpenIn(ledger, scope) || OpensScope(ledger, step, scope)
  {
    match step
    case Happens(e) => OpenedByEvent(ledger, e, scope);
    case Expires(at) =>
      var next := Updated(ledger, step).records;
      var i :| 0 <= i < |next| && next[i].scope == scope && next[i].circuit.state == Open;
      ExpiryIsExact(ledger.records[i], at);
      assert ledger.records[i].circuit.state == Open;
  }

  lemma OpenUntilNow(policy: Policy, steps: seq<Step>, scope: string, i: nat)
    requires steps != [] && i < |steps| && OpenIn(Run(policy, steps), scope)
    requires var before := steps[..|steps| - 1];
             forall n :: i < n <= |before| ==> OpenIn(Run(policy, before[..n]), scope)
    ensures forall n :: i < n <= |steps| ==> OpenIn(Run(policy, steps[..n]), scope)
  {
    var before := steps[..|steps| - 1];
    assert steps[..|steps|] == steps;
    forall n | i < n <= |steps|
      ensures OpenIn(Run(policy, steps[..n]), scope)
    {
      if n < |steps| {
        assert before[..n] == steps[..n];
      }
    }
  }

  lemma OpenedInRun(policy: Policy, steps: seq<Step>, scope: string)
    requires steps != [] && OpenIn(Run(policy, steps), scope)
    ensures var before := steps[..|steps| - 1];
            OpenIn(Run(policy, before), scope) || OpensScope(Run(policy, before), steps[|steps| - 1], scope)
  {
    var before := steps[..|steps| - 1];
    IdsAndScopesAreUnique(policy, before);
    OpenedByStep(Run(policy, before), steps[|steps| - 1], scope);
  }

  /**
   In every run an open circuit was opened by a usage limit or by failures that reached the retry limit, and has been
   open ever since.
   */
  lemma {:induction false} OpenSinceTrip(policy: Policy, steps: seq<Step>, scope: string) returns (i: nat)
    requires OpenIn(Run(policy, steps), scope)
    ensures i < |steps| && OpensScope(Run(policy, steps[..i]), steps[i], scope)
    ensures forall n :: i < n <= |steps| ==> OpenIn(Run(policy, steps[..n]), scope)
  {
    assert steps != [];
    var before := steps[..|steps| - 1];
    OpenedInRun(policy, steps, scope);
    if OpensScope(Run(policy, before), steps[|steps| - 1], scope) {
      i := |steps| - 1;
      OpenUntilNow(policy, steps, scope, i);
    } else {
      i := OpenSinceTrip(policy, before, scope);
      assert before[..i] == steps[..i] && before[i] == steps[i];
      OpenUntilNow(policy, steps, scope, i);
    }
  }
}
