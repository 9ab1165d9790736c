/**
 The capacity circuit breaker: a ledger of capacity records keyed by scope, driven by dispatch events and by the
 passing of time, whose own audit looks for states the updates should never produce.
 */
module Capacity {
  import opened Basics

  datatype CapacityState = Unknown | Probing | SuspectedUnavailable | Unavailable | Cooldown | Available
  datatype Cause = NoCause | UnknownCause | UsageWindowExhausted
  datatype Classification = Unconfirmed | MachineInferred | MachineAmbiguous | UserConfirmed | MachineConfirmed
  datatype Level = E0 | E1 | E2 | E3
  datatype CircuitState = Closed | HalfOpen | Open
  datatype ReasonCode = RepeatedPrestartFailure | UsageExhausted

  datatype Circuit = Circuit(
    state: CircuitState, generation: nat, openedAt: Option<Time>, reason: Option<ReasonCode>, probes: nat,
    nextProbe: Option<Time>)

  datatype Record = Record(
    scope: string,
    state: CapacityState,
    cause: Cause,
    classification: Classification,
    level: Level,
    observedAt: Option<Time>,
    confirmedAt: Option<Time>,
    expiresAt: Option<Time>,
    cooldownUntil: Option<Time>,
    resetAt: Option<Time>,
    lastSuccessAt: Option<Time>,
    failures: nat,
    circuit: Circuit,
    evidence: seq<nat>)

  datatype DispatchState =
    | Queued | DispatchAccepted | PrestartError | TurnStarted | ProgressObserved | ReportProduced | StartTimeout
  datatype Dispatch = Dispatch(
    id: string, task: Option<string>, agent: Option<string>, thread: Option<string>,
    state: DispatchState, queuedAt: Time, turnStartedAt: Option<Time>, fingerprint: Option<string>)

  datatype Evidence = Evidence(
    id: nat, level: Level, classification: Classification, observedAt: Time, expiresAt: Option<Time>)

  datatype Policy = Policy(
    retryLimit: nat, correlationWindow: nat, availableTtl: nat, suspectedTtl: nat, unavailableTtl: nat,
    confirmedTtl: nat, firstBackoff: nat)

  datatype Ledger = Ledger(
    policy: Policy, updatedAt: Option<Time>, records: seq<Record>, dispatches: seq<Dispatch>, evidence: seq<Evidence>)

  datatype EventKind =
    | DispatchQueuedEvent | DispatchAcceptedEvent | PrestartErrorEvent | UsageLimitEvent
    | TurnStartedEvent | ProgressEvent | ReportEvent | StartTimeoutEvent
  datatype Event = Event(
    kind: EventKind, at: Time, explicitScope: Option<string>, thread: Option<string>, agent: Option<string>,
    task: Option<string>, dispatch: string, byUser: bool, resetAt: Option<Time>, expiresAt: Option<Time>,
    fingerprint: string)

  function ScopeKey(e: Event): string {
    if e.explicitScope.Some? then e.explicitScope.value
    else if e.thread.Some? then "thread:" + e.thread.value
    else "unknown:" + (if e.agent.Some? then e.agent.value else "unassigned")
  }

  // ---------------------------------------------------------------- finding or adding

  function NewRecord(scope: string): Record {
    Record(scope, Unknown, NoCause, Unconfirmed, E0, None, None, None, None, None, None, 0,
           Circuit(HalfOpen, 0, None, None, 0, None), [])
  }

  /** The first item with the key, or the length when there is none. */
  function IndexBy<T>(items: seq<T>, key: T -> string, wanted: string): (i: nat)
    ensures i <= |items|
    ensures i < |items| ==> key(items[i]) == wanted
    ensures forall k :: 0 <= k < i ==> key(items[k]) != wanted
  {
    if items == [] || key(items[0]) == wanted then 0
    else
      assert forall k :: 1 <= k < |items| ==> items[k] == items[1..][k - 1];
      1 + IndexBy(items[1..], key, wanted)
  }

  function ScopeIndex(records: seq<Record>, scope: string): nat {
    IndexBy(records, (r: Record) => r.scope, scope)
  }

  function DispatchIndex(dispatches: seq<Dispatch>, id: string): nat {
    IndexBy(dispatches, (d: Dispatch) => d.id, id)
  }

  predicate UniqueScopes(records: seq<Record>) {
    forall i, j :: 0 <= i < j < |records| ==> records[i].scope != records[j].scope
  }

  /** The records with the scope's own added at the end when it was missing. */
  function Ensured(records: seq<Record>, scope: string): (r: seq<Record>)
    ensures ScopeIndex(records, scope) < |r| && r[ScopeIndex(records, scope)].scope == scope
    ensures UniqueScopes(records) ==> UniqueScopes(r)
  {
    if ScopeIndex(records, scope) < |records| then records else records + [NewRecord(scope)]
  }

  /** `ensureCapacityRecord`. */
  method EnsureRecord(records: seq<Record>, scope: string) returns (next: seq<Record>, i: nat)
    ensures next == Ensured(records, scope) && i == ScopeIndex(records, scope)
  {
    for n := 0 to |records|
      invariant forall k :: 0 <= k < n ==> records[k].scope != scope
    {
      if records[n].scope == scope {
        return records, n;
      }
    }
    next, i := records + [NewRecord(scope)], |records|;
  }

  function NewDispatch(e: Event): Dispatch {
    Dispatch(e.dispatch, e.task, e.agent, e.thread, Queued, e.at, None, None)
  }

  function EnsuredDispatches(dispatches: seq<Dispatch>, e: Event): (r: seq<Dispatch>)
    ensures DispatchIndex(dispatches, e.dispatch) < |r|
  {
    if DispatchIndex(dispatches, e.dispatch) < |dispatches| then dispatches else dispatches + [NewDispatch(e)]
  }

  method EnsureDispatch(dispatches: seq<Dispatch>, e: Event) returns (next: seq<Dispatch>, i: nat)
    ensures next == EnsuredDispatches(dispatches, e) && i == DispatchIndex(dispatches, e.dispatch)
  {
    for n := 0 to |dispatches|
      invariant forall k :: 0 <= k < n ==> dispatches[k].id != e.dispatch
    {
      if dispatches[n].id == e.dispatch {
        return dispatches, n;
      }
    }
    next, i := dispatches + [NewDispatch(e)], |dispatches|;
  }

  predicate Correlates(d: Dispatch, with: Dispatch, windowStart: Time) {
    && d.task == with.task && d.agent == with.agent && d.thread == with.thread
    && d.state == PrestartError && d.fingerprint == with.fingerprint
    && windowStart <= d.queuedAt
  }

  function Correlated(dispatches: seq<Dispatch>, with: Dispatch, windowStart: Time): nat {
    if dispatches == [] then 0
    else
      var n := |dispatches| - 1;
      Correlated(dispatches[..n], with, windowStart) + (if Correlates(dispatches[n], with, windowStart) then 1 else 0)
  }

  method CountCorrelated(dispatches: seq<Dispatch>, with: Dispatch, windowStart: Time) returns (count: nat)
    ensures count == Correlated(dispatches, with, windowStart)
  {
    count := 0;
    for i := 0 to |dispatches|
      invariant count == Correlated(dispatches[..i], with, windowStart)
    {
      assert dispatches[..i + 1][..i] == dispatches[..i];
      if Correlates(dispatches[i], with, windowStart) {
        count := count + 1;
      }
    }
    assert dispatches[..|dispatches|] == dispatches;
  }

  // ---------------------------------------------------------------- what an event does to a record

  const MINUTE := 60_000

  function Minutes(at: Time, minutes: nat): Time {
    at + minutes * MINUTE
  }

  /** The record is opened by repeated failures. */
  function Tripped(p: Policy, r: Record, at: Time, failures: nat): Record {
    r.(state := Unavailable, cause := UnknownCause, classification := MachineInferred, level := E2,
       failures := failures,
       expiresAt := Some(Minutes(at, p.unavailableTtl)),
       circuit := r.circuit.(state := Open, generation := r.circuit.generation + 1, openedAt := Some(at),
                             reason := Some(RepeatedPrestartFailure), nextProbe := Some(Minutes(at, p.firstBackoff))))
  }

  function Suspected(p: Policy, r: Record, at: Time, failures: nat): Record {
    r.(state := SuspectedUnavailable, cause := UnknownCause, classification := MachineAmbiguous, level := E1,
       failures := failures,
       expiresAt := Some(Minutes(at, p.suspectedTtl)), circuit := r.circuit.(state := HalfOpen))
  }

  function CoolingDown(p: Policy, r: Record, e: Event): Record {
    var until := if e.resetAt.Some? then e.resetAt.value else Minutes(e.at, p.firstBackoff);
    r.(state := Cooldown, cause := UsageWindowExhausted,
       classification := if e.byUser then UserConfirmed else MachineConfirmed, level := E3,
       confirmedAt := Some(e.at), resetAt := e.resetAt, cooldownUntil := Some(until),
       expiresAt := Some(if e.expiresAt.Some? then e.expiresAt.value else Minutes(e.at, p.confirmedTtl)),
       circuit := r.circuit.(state := Open, generation := r.circuit.generation + 1, openedAt := Some(e.at),
                             reason := Some(UsageExhausted), nextProbe := Some(until)))
  }

  function Recovered(p: Policy, r: Record, at: Time): Record {
    r.(state := Available, cause := NoCause, classification := MachineConfirmed, level := E3, lastSuccessAt := Some(at),
       expiresAt := Some(Minutes(at, p.availableTtl)), cooldownUntil := None, failures := 0,
       circuit := r.circuit.(state := Closed, reason := None, nextProbe := None))
  }

  /** Progress counts only after a correlated turn start, or while the circuit is closed. */
  predicate Proves(e: Event, r: Record, started: bool) {
    e.kind == TurnStartedEvent || (e.kind == ProgressEvent && (started || r.circuit.state == Closed))
  }

  function RecordAfter(p: Policy, seen: Record, e: Event, correlated: nat, started: bool): Record {
    var r := seen.(observedAt := Some(e.at));
    match e.kind
    case DispatchQueuedEvent =>
      if r.state == Unknown then r.(state := Probing, cause := NoCause, circuit := r.circuit.(state := HalfOpen)) else r
    case DispatchAcceptedEvent =>
      r.(state := if r.state == Unknown then Probing else r.state,
         circuit := r.circuit.(state := if r.circuit.state == Closed then Closed else HalfOpen))
    case PrestartErrorEvent =>
      if correlated >= p.retryLimit then Tripped(p, r, e.at, correlated) else Suspected(p, r, e.at, correlated)
    case UsageLimitEvent => CoolingDown(p, r, e)
    case ReportEvent => r
    case StartTimeoutEvent =>
      r.(state := Unknown, cause := UnknownCause, classification := Unconfirmed, level := E0,
         circuit := r.circuit.(state := HalfOpen))
    case _ => if Proves(e, r, started) then Recovered(p, r, e.at) else r
  }

  predicate AddsEvidence(r: Record, e: Event, started: bool) {
    e.kind == PrestartErrorEvent || e.kind == UsageLimitEvent || Proves(e, r, started)
  }

  function DispatchAfter(d: Dispatch, e: Event): Dispatch {
    match e.kind
    case DispatchAcceptedEvent => d.(state := DispatchAccepted)
    case PrestartErrorEvent => d.(state := PrestartError, fingerprint := Some(e.fingerprint))
    case TurnStartedEvent => d.(state := TurnStarted, turnStartedAt := Some(e.at))
    case ProgressEvent => d.(state := ProgressObserved)
    case ReportEvent => d.(state := ReportProduced)
    case StartTimeoutEvent => d.(state := StartTimeout)
    case _ => d
  }

  /** The dispatches after the event; a usage limit names no dispatch. */
  function DispatchesAfter(ledger: Ledger, e: Event): seq<Dispatch> {
    if e.kind == UsageLimitEvent then ledger.dispatches
    else
      var all, k := EnsuredDispatches(ledger.dispatches, e), DispatchIndex(ledger.dispatches, e.dispatch);
      all[k := DispatchAfter(all[k], e)]
  }

  function TurnHasStarted(ledger: Ledger, e: Event): bool {
    e.kind != UsageLimitEvent &&
    var all, k := EnsuredDispatches(ledger.dispatches, e), DispatchIndex(ledger.dispatches, e.dispatch);
    DispatchAfter(all[k], e).turnStartedAt.Some?
  }

  function FailuresCorrelated(ledger: Ledger, e: Event): nat {
    if e.kind != PrestartErrorEvent then 0
    else
      var all, k := EnsuredDispatches(ledger.dispatches, e), DispatchIndex(ledger.dispatches, e.dispatch);
      Correlated(DispatchesAfter(ledger, e), DispatchAfter(all[k], e), e.at - ledger.policy.correlationWindow * MINUTE)
  }

  /** The record of the event's scope, as it is found or new. */
  function Prior(ledger: Ledger, e: Event): Record {
    Ensured(ledger.records, ScopeKey(e))[ScopeIndex(ledger.records, ScopeKey(e))]
  }

  predicate AddsTo(ledger: Ledger, e: Event) {
    AddsEvidence(Prior(ledger, e), e, TurnHasStarted(ledger, e))
  }

  function Changed(ledger: Ledger, e: Event): Record {
    RecordAfter(ledger.policy, Prior(ledger, e), e, FailuresCorrelated(ledger, e), TurnHasStarted(ledger, e))
  }

  function Noted(ledger: Ledger, e: Event): Record {
    var r := Changed(ledger, e);
    if AddsTo(ledger, e) then r.(evidence := r.evidence + [|ledger.evidence| + 1]) else r
  }

  function EvidenceAfter(ledger: Ledger, e: Event): seq<Evidence> {
    var r := Changed(ledger, e);
    if AddsTo(ledger, e)
    then ledger.evidence + [Evidence(|ledger.evidence| + 1, r.level, r.classification, e.at, r.expiresAt)]
    else ledger.evidence
  }

  /** The ledger after an event: one record, at most one dispatch and at most one piece of evidence change. */
  function After(ledger: Ledger, e: Event): Ledger {
    var records, i := Ensured(ledger.records, ScopeKey(e)), ScopeIndex(ledger.records, ScopeKey(e));
    Ledger(ledger.policy, Some(e.at), records[i := Noted(ledger, e)], DispatchesAfter(ledger, e),
           EvidenceAfter(ledger, e))
  }

  /** `applyCapacityEvent`. */
  method ApplyEvent(ledger: Ledger, e: Event) returns (next: Ledger)
    ensures next == After(ledger, e)
  {
    var records, i := EnsureRecord(ledger.records, ScopeKey(e));
    var dispatches, count, started := ledger.dispatches, 0, false;
    if e.kind != UsageLimitEvent {
      var k;
      dispatches, k := EnsureDispatch(dispatches, e);
      dispatches := dispatches[k := DispatchAfter(dispatches[k], e)];
      started := dispatches[k].turnStartedAt.Some?;
      if e.kind == PrestartErrorEvent {
        count := CountCorrelated(dispatches, dispatches[k], e.at - ledger.policy.correlationWindow * MINUTE);
      }
    }
    var record := RecordAfter(ledger.policy, records[i], e, count, started);
    var evidence := ledger.evidence;
    if AddsEvidence(records[i], e, started) {
      var id := |evidence| + 1;
      evidence := evidence + [Evidence(id, record.level, record.classification, e.at, record.expiresAt)];
      record := record.(evidence := record.evidence + [id]);
    }
    next := Ledger(ledger.policy, Some(e.at), records[i := record], dispatches, evidence);
  }

  // ---------------------------------------------------------------- the passing of time

  function ExpiredRecord(r: Record, now: Time): Record {
    if r.state == Cooldown && r.cooldownUntil.Some? && r.cooldownUntil.value <= now then
      r.(state := Probing, circuit := r.circuit.(state := HalfOpen, probes := r.circuit.probes + 1, nextProbe := None))
    else if r.expiresAt.Some? && r.expiresAt.value <= now
            && (r.state == Available || r.state == SuspectedUnavailable || r.state == Unavailable) then
      r.(state := Unknown, cause := UnknownCause, classification := Unconfirmed, level := E0,
         circuit := r.circuit.(state := if r.circuit.state == Open then Open else HalfOpen))
    else r
  }

  function ExpiredRecords(records: seq<Record>, now: Time): (r: seq<Record>)
    ensures |r| == |records| && forall i :: 0 <= i < |records| ==> r[i] == ExpiredRecord(records[i], now)
  {
    seq(|records|, i requires 0 <= i < |records| => ExpiredRecord(records[i], now))
  }

  function Expired(ledger: Ledger, now: Time): Ledger {
    ledger.(updatedAt := Some(now), records := ExpiredRecords(ledger.records, now))
  }

  /** `expireCapacity`: each record in turn. */
  method Expire(ledger: Ledger, now: Time) returns (next: Ledger)
    ensures next == Expired(ledger, now)
  {
    var records := ledger.records;
    for i := 0 to |records|
      invariant |records| == |ledger.records|
      invariant forall k :: 0 <= k < i ==> records[k] == ExpiredRecord(ledger.records[k], now)
      invariant forall k :: i <= k < |records| ==> records[k] == ledger.records[k]
    {
      records := records[i := ExpiredRecord(records[i], now)];
    }
    next := ledger.(updatedAt := Some(now), records := records);
  }

  /** Expiring at an earlier time first makes no difference. */
  lemma ExpiryComposes(ledger: Ledger, t1: Time, t2: Time)
    requires t1 <= t2
    ensures Expired(Expired(ledger, t1), t2) == Expired(ledger, t2)
  {
    var once, twice := Expired(ledger, t2).records, Expired(Expired(ledger, t1), t2).records;
    forall i | 0 <= i < |ledger.records|
      ensures once[i] == twice[i]
    {
      assert ExpiredRecord(ExpiredRecord(ledger.records[i], t1), t2) == ExpiredRecord(ledger.records[i], t2);
    }
    assert once == twice;
  }

  // ---------------------------------------------------------------- the audit

  predicate MisclassifiedAmbiguity(r: Record) {
    r.classification == MachineAmbiguous && r.level == E1 && r.cause == UsageWindowExhausted
  }

  predicate ConfirmedUsageOutsideCooldown(r: Record, now: Time) {
    && (r.classification == UserConfirmed || r.classification == MachineConfirmed)
    && r.cause == UsageWindowExhausted
    && r.cooldownUntil.Some? && now < r.cooldownUntil.value
    && r.state != Cooldown
  }

  predicate StaleAvailable(r: Record, now: Time) {
    r.state == Available && r.expiresAt.Some? && r.expiresAt.value <= now
  }

  /** What holds of a record while no expiry has been ahead of `now`. */
  predicate RecordOk(r: Record, now: Time) {
    && (r.circuit.state == Closed <==> r.state == Available)
    && (r.classification == MachineAmbiguous ==> r.cause != UsageWindowExhausted)
    && (r.cause == UsageWindowExhausted && r.state != Cooldown ==>
          r.cooldownUntil.Some? && r.cooldownUntil.value <= now)
    && (r.state == Cooldown ==> r.cooldownUntil.Some?)
  }

  predicate AllOk(records: seq<Record>, now: Time) {
    forall i :: 0 <= i < |records| ==> RecordOk(records[i], now)
  }

  predicate LedgerOk(ledger: Ledger, now: Time) {
    && AllOk(ledger.records, now)
    && UniqueScopes(ledger.records)
    && (forall i :: 0 <= i < |ledger.evidence| ==> ledger.evidence[i].id == i + 1)
  }

  lemma EventKeepsRecordOk(p: Policy, r: Record, e: Event, correlated: nat, started: bool, now: Time)
    requires RecordOk(r, now)
    ensures RecordOk(RecordAfter(p, r, e, correlated, started), now)
    ensures RecordAfter(p, r, e, correlated, started).scope == r.scope
  {
  }

  lemma ExpiryKeepsRecordOk(r: Record, at: Time, now: Time)
    requires RecordOk(r, now) && at <= now
    ensures RecordOk(ExpiredRecord(r, at), now)
    ensures !StaleAvailable(ExpiredRecord(r, at), at)
    ensures !(ExpiredRecord(r, at).state == Cooldown && ExpiredRecord(r, at).cooldownUntil.value <= at)
  {
  }

  datatype Step = Happens(e: Event) | Expires(at: Time)

  function Updated(ledger: Ledger, s: Step): Ledger {
    match s
    case Expires(at) => Expired(ledger, at)
    case Happens(e) => After(ledger, e)
  }

  /** Replacing one record by a sound one of the same scope keeps the list sound. */
  lemma ReplaceKeepsSound(records: seq<Record>, i: nat, r: Record, now: Time)
    requires UniqueScopes(records) && AllOk(records, now)
    requires i < |records| && RecordOk(r, now) && r.scope == records[i].scope
    ensures UniqueScopes(records[i := r]) && AllOk(records[i := r], now)
  {
  }

  lemma EnsuredIsSound(records: seq<Record>, scope: string, now: Time)
    requires UniqueScopes(records) && AllOk(records, now)
    ensures UniqueScopes(Ensured(records, scope)) && AllOk(Ensured(records, scope), now)
  {
  }

  lemma EventKeepsLedgerOk(ledger: Ledger, e: Event, now: Time)
    requires LedgerOk(ledger, now)
    ensures LedgerOk(After(ledger, e), now)
  {
    var records, i := Ensured(ledger.records, ScopeKey(e)), ScopeIndex(ledger.records, ScopeKey(e));
    EnsuredIsSound(ledger.records, ScopeKey(e), now);
    EventKeepsRecordOk(ledger.policy, records[i], e, FailuresCorrelated(ledger, e), TurnHasStarted(ledger, e), now);
    ReplaceKeepsSound(records, i, Noted(ledger, e), now);
  }

  lemma StepKeepsLedgerOk(ledger: Ledger, s: Step, now: Time)
    requires LedgerOk(ledger, now) && (s.Expires? ==> s.at <= now)
    ensures LedgerOk(Updated(ledger, s), now)
  {
    match s
    case Expires(at) =>
      var after := Updated(ledger, s).records;
      forall i | 0 <= i < |ledger.records|
        ensures RecordOk(after[i], now) && after[i].scope == ledger.records[i].scope
      {
        ExpiryKeepsRecordOk(ledger.records[i], at, now);
      }
    case Happens(e) => EventKeepsLedgerOk(ledger, e, now);
  }

  function Empty(policy: Policy): Ledger {
    Ledger(policy, None, [], [], [])
  }

  function Run(policy: Policy, steps: seq<Step>): Ledger {
    if steps == [] then Empty(policy) else Updated(Run(policy, steps[..|steps| - 1]), steps[|steps| - 1])
  }

  /** No expiry was computed with a clock ahead of `now`. Events may carry any times, in any order. */
  predicate NoExpiryAfter(steps: seq<Step>, now: Time) {
    forall i :: 0 <= i < |steps| && steps[i].Expires? ==> steps[i].at <= now
  }

  function LatestExpiry(steps: seq<Step>): (latest: Time)
    ensures NoExpiryAfter(steps, latest)
  {
    if steps == [] then 0
    else
      var latest, last := LatestExpiry(steps[..|steps| - 1]), steps[|steps| - 1];
      if last.Expires? && latest < last.at then last.at else latest
  }

  /** In every run from the empty ledger: sound records, unique scopes and numbered evidence. */
  lemma {:induction false} RunIsSound(policy: Policy, steps: seq<Step>, now: Time)
    requires NoExpiryAfter(steps, now)
    ensures LedgerOk(Run(policy, steps), now)
  {
    if steps != [] {
      var before, s := steps[..|steps| - 1], steps[|steps| - 1];
      RunIsSound(policy, before, now);
      StepKeepsLedgerOk(Run(policy, before), s, now);
    }
  }

  /**
   Whatever the times and their order, no record is a misclassified ambiguity and a circuit is closed just when its
   record is available. An audit finds no confirmed usage limit outside its cooldown, unless its own clock is behind
   one an expiry has already used.
   */
  lemma AuditFindsNoContradiction(policy: Policy, steps: seq<Step>, now: Time, i: nat)
    requires i < |Run(policy, steps).records|
    ensures !MisclassifiedAmbiguity(Run(policy, steps).records[i])
    ensures NoExpiryAfter(steps, now) ==> !ConfirmedUsageOutsideCooldown(Run(policy, steps).records[i], now)
    ensures Run(policy, steps).records[i].circuit.state == Closed <==> Run(policy, steps).records[i].state == Available
  {
    var latest := LatestExpiry(steps);
    RunIsSound(policy, steps, latest);
    assert RecordOk(Run(policy, steps).records[i], latest);
    if NoExpiryAfter(steps, now) {
      RunIsSound(policy, steps, now);
      assert RecordOk(Run(policy, steps).records[i], now);
    }
  }

  /** A usage limit confirmed at `now`, and an expiry that uses a later clock: the run's own times never go back. */
  function LimitThenExpiry(now: Time, expiry: Time): seq<Step> {
    [Happens(Event(UsageLimitEvent, now, Some("s"), None, None, None, "d", true, Some(expiry), None, "")),
     Expires(expiry)]
  }

  /** For every audit time behind an expiry's the contradiction does occur. */
  lemma AuditMustNotLagExpiry(policy: Policy, now: Time, expiry: Time)
    requires now < expiry
    ensures |Run(policy, LimitThenExpiry(now, expiry)).records| == 1
    ensures ConfirmedUsageOutsideCooldown(Run(policy, LimitThenExpiry(now, expiry)).records[0], now)
  {
    var steps := LimitThenExpiry(now, expiry);
    var first := steps[..1];
    assert first == [steps[0]] && first[..0] == [];
    assert Run(policy, []) == Empty(policy);
    var one := After(Empty(policy), steps[0].e);
    assert Run(policy, first) == one;
    assert |one.records| == 1 && one.records[0].state == Cooldown && one.records[0].cooldownUntil == Some(expiry);
    assert Run(policy, steps) == Expired(one, expiry);
    assert Run(policy, steps).records[0] == ExpiredRecord(one.records[0], expiry);
  }

  /** Evidence is numbered in the order it was added, so no two pieces share an id; nor do two records share a scope. */
  lemma IdsAndScopesAreUnique(policy: Policy, steps: seq<Step>)
    ensures forall i :: 0 <= i < |Run(policy, steps).evidence| ==> Run(policy, steps).evidence[i].id == i + 1
    ensures UniqueScopes(Run(policy, steps).records)
  {
    RunIsSound(policy, steps, LatestExpiry(steps));
  }
}
