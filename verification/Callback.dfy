/**
 What the observation boundary hands the decider for a worker callback and for a send expiration:
 a live settlement, a stale delivery to quarantine, a send expiry, or nothing because it refused.
 Bindings of effect identity, attestation contents and settlement policy are taken as already passed.
 */
module Callback {
  import opened Basics
  import opened Outbox

  datatype Stale = StaleGeneration | StaleLease | StaleStage

  datatype Refusal = EffectInvalid | AttestationMismatch | NeverIssued | NotCurrentLease | PhaseInvalid | NotExpired

  datatype Facts =
    | Live(token: Token)
    | Quarantine(reason: Stale)
    | Expiry(token: Token, expiresAt: Time, quarantineOriginal: bool)

  datatype Binding = Binding(
    status: Status,
    leaseGeneration: nat,
    issued: Option<Token>,
    current: Option<Token>,
    expiresAt: Option<Time>)

  function Issued(history: seq<Token>, token: Token): Option<Token> {
    if 0 <= token.generation - 1 < |history| then Some(history[token.generation - 1]) else None
  }

  /** The current lease, once the projected fencing history has been found consistent. */
  function Bind(s: EffectState, callback: Token): Outcome<Binding, Refusal> {
    var last := if s.history == [] then None else Some(s.history[|s.history| - 1]);
    var current := if s.lease.None? then None else Some(s.lease.value.token);
    if |s.history| != s.leaseGeneration
       || (exists i :: 0 <= i < |s.history| && s.history[i].generation != i + 1)
       || (last.None? != s.lastLeaseId.None?)
       || (last.Some? && last.value.leaseId != s.lastLeaseId.value)
       || (current.Some? && current != last)
       || (s.lease.Some? && s.lease.value.token.generation < 1)
    then Err(EffectInvalid)
    else Ok(Binding(s.status, s.leaseGeneration, Issued(s.history, callback), current,
                    if s.lease.None? then None else Some(s.lease.value.expiresAt)))
  }

  /** The worker part of `validateSettlementAttestation`: refused, stale for a reason, or neither. */
  function Validate(b: Binding, attested: Token, callback: Token): Outcome<Option<Stale>, Refusal> {
    if attested != callback then Err(AttestationMismatch)
    else if b.issued != Some(callback) then Err(NeverIssued)
    else if callback.generation < b.leaseGeneration then Ok(Some(StaleGeneration))
    else if b.current.None? then
      Ok(Some(if b.status == Delivered || b.status == NotSent || b.status == Cancelled then StaleStage else StaleLease))
    else if b.current.value != callback then Err(NotCurrentLease)
    else if b.status != Sending then Err(PhaseInvalid)
    else Ok(None)
  }

  /** `decisionFacts` for a worker result. */
  function WorkerResult(s: EffectState, attested: Token, callback: Token, at: Time): Outcome<Facts, Refusal> {
    match Bind(s, callback)
    case Err(e) => Err(e)
    case Ok(b) =>
      match Validate(b, attested, callback)
      case Err(e) => Err(e)
      case Ok(Some(reason)) => Ok(Quarantine(reason))
      case Ok(None) =>
        if b.status == Sending && b.expiresAt.Some? && b.expiresAt.value <= at
        then Ok(Expiry(callback, b.expiresAt.value, true))
        else Ok(Live(callback))
  }

  /** `effectSendExpiryBinding` and `decisionFacts` for a send expiration observation. */
  function SendExpiration(s: EffectState, expired: Token, expiresAt: Time, at: Time): Outcome<Facts, Refusal> {
    if Issued(s.history, expired) != Some(expired) then Err(NeverIssued)
    else if s.status == Delivered || s.status == NotSent || s.status == Cancelled then Ok(Quarantine(StaleStage))
    else if s.lease.None? || s.lease.value.token != expired || s.lease.value.expiresAt != expiresAt
    then Ok(Quarantine(StaleLease))
    else if s.status != Sending then Ok(Quarantine(StaleStage))
    else if at < expiresAt then Err(NotExpired)
    else Ok(Expiry(expired, expiresAt, false))
  }

  /** The boundary reads an effect exactly when its fencing history agrees with its lease, whatever its status. */
  lemma BindChecksFencing(s: EffectState, callback: Token)
    ensures Bind(s, callback).Ok? <==>
              && |s.history| == s.leaseGeneration
              && (forall i :: 0 <= i < |s.history| ==> s.history[i].generation == i + 1)
              && (if s.history == [] then s.lastLeaseId.None?
                  else s.lastLeaseId == Some(s.history[|s.history| - 1].leaseId))
              && (s.lease.Some? ==> s.history != [] && s.lease.value.token == s.history[|s.history| - 1])
    ensures Fenced(s) ==> Bind(s, callback).Ok?
    ensures Bind(s, callback).Ok? && (s.lease.Some? <==> s.status == Claimed || s.status == Sending) ==> Fenced(s)
  {
  }

  // ---------------------------------------------------------------- issued tokens

  predicate ClaimedUnder(ev: Event, e: EffectId, token: Token) {
    ev.ClaimedBy? && ev.effect == e && ev.lease.token == token
  }

  /** The fencing history of an effect is exactly the tokens its committed claims issued. */
  lemma {:induction false} HistoryIsTheClaims(evs: seq<Event>, e: EffectId, token: Token)
    requires Replay(evs).Some? && e in Replay(evs).value
    ensures token in Replay(evs).value[e].history
            <==> exists i :: 0 <= i < |evs| && ClaimedUnder(evs[i], e, token)
  {
    if evs != [] {
      var before, ev := evs[..|evs| - 1], evs[|evs| - 1];
      var h := Replay(evs).value[e].history;
      if e in Replay(before).value {
        HistoryIsTheClaims(before, e, token);
        if token in Replay(before).value[e].history {
          var i :| 0 <= i < |before| && ClaimedUnder(before[i], e, token);
          assert ClaimedUnder(evs[i], e, token);
        }
        if exists i :: 0 <= i < |evs| && ClaimedUnder(evs[i], e, token) {
          var i :| 0 <= i < |evs| && ClaimedUnder(evs[i], e, token);
          if i < |before| {
            assert ClaimedUnder(before[i], e, token);
          }
        }
        if ev.effect == e && ev.ClaimedBy? {
          assert h == Replay(before).value[e].history + [ev.lease.token];
          if ev.lease.token == token {
            assert ClaimedUnder(evs[|evs| - 1], e, token);
            assert h[|h| - 1] == token;
          }
        }
      } else {
        assert h == [];
        forall i | 0 <= i < |evs|
          ensures !ClaimedUnder(evs[i], e, token)
        {
          if i < |before| && ClaimedUnder(evs[i], e, token) {
            NeverMentioned(before, e, i);
          }
        }
      }
    }
  }

  /** An effect the projection does not know appears in no replayed event. */
  lemma {:induction false} NeverMentioned(evs: seq<Event>, e: EffectId, i: nat)
    requires Replay(evs).Some? && e !in Replay(evs).value && i < |evs|
    ensures evs[i].effect != e
  {
    var before := evs[..|evs| - 1];
    if i < |before| {
      NeverMentioned(before, e, i);
    }
  }

  lemma IssuedMeansInHistory(s: EffectState, token: Token)
    requires Fenced(s)
    ensures Issued(s.history, token) == Some(token) <==> token in s.history
  {
    if token in s.history {
      var i :| 0 <= i < |s.history| && s.history[i] == token;
    }
  }

  // ---------------------------------------------------------------- classification

  /** The five outcomes of a worker callback on an effect whose lease and history agree. */
  ghost predicate Sorted(s: EffectState, token: Token, at: Time, issued: bool) {
    var r := WorkerResult(s, token, token, at);
    && (r == Err(NeverIssued) <==> !issued)
    && (r == Ok(Live(token)) <==> Holds(s, token) && s.status == Sending && at < s.lease.value.expiresAt)
    && (r == Err(PhaseInvalid) <==> Holds(s, token) && s.status == Claimed)
    && ((r.Ok? && r.value.Expiry?) <==> Holds(s, token) && s.status == Sending && s.lease.value.expiresAt <= at)
    && ((r.Ok? && r.value.Quarantine?) <==> issued && !Holds(s, token))
    && (r.Err? ==> r.error == NeverIssued || r.error == PhaseInvalid)
  }

  lemma FencedCallbackIsSorted(s: EffectState, token: Token, at: Time)
    requires Fenced(s)
    ensures Sorted(s, token, at, token in s.history)
  {
    IssuedMeansInHistory(s, token);
    if token in s.history {
      var i :| 0 <= i < |s.history| && s.history[i] == token;
      assert i + 1 == token.generation;
    }
  }

  /**
   On every effect a replayed journal can contain, and for every token and time, a worker callback is
   sorted into exactly these cases; `EffectInvalid` and `NotCurrentLease` never arise.
   */
  lemma WorkerCallbackIsSorted(evs: seq<Event>, e: EffectId, token: Token, at: Time)
    requires Replay(evs).Some? && e in Replay(evs).value
    ensures Sorted(Replay(evs).value[e], token, at, exists i :: 0 <= i < |evs| && ClaimedUnder(evs[i], e, token))
  {
    ReplayFenced(evs);
    HistoryIsTheClaims(evs, e, token);
    FencedCallbackIsSorted(Replay(evs).value[e], token, at);
  }

  /** Why a callback is stale: a newer claim exists, or the last lease was given up before or after settling. */
  lemma StaleReasonIsExact(s: EffectState, token: Token, at: Time)
    requires Fenced(s) && token in s.history && !Holds(s, token)
    ensures var r := WorkerResult(s, token, token, at);
            r == Ok(Quarantine(
                   if token != s.history[|s.history| - 1] then StaleGeneration
                   else if s.status == Delivered || s.status == NotSent || s.status == Cancelled then StaleStage
                   else StaleLease))
  {
    IssuedMeansInHistory(s, token);
    var i :| 0 <= i < |s.history| && s.history[i] == token;
    assert i + 1 == token.generation;
  }

  /**
   The boundary against the projector, for every status: a callback is live exactly when the projector would accept
   its settlement of a sending effect, and an expiry exactly when it would accept the send expiration.
   */
  lemma BoundaryAgreesWithProjector(s: EffectState, e: EffectId, token: Token, to: Status, at: Time)
    requires Fenced(s) && s.updatedAt <= at
    requires to == Delivered || to == NotSent || to == DeliveryUnknown
    ensures WorkerResult(s, token, token, at) == Ok(Live(token))
            <==> Move(s, Settled(e, to, Some(token), at)).Some? && s.status == Sending
    ensures (WorkerResult(s, token, token, at).Ok? && WorkerResult(s, token, token, at).value.Expiry?)
            <==> Move(s, SendExpired(e, token, at)).Some?
    ensures (exists until :: SendExpiration(s, token, until, at) == Ok(Expiry(token, until, false)))
            <==> Move(s, SendExpired(e, token, at)).Some?
  {
    IssuedMeansInHistory(s, token);
    if Holds(s, token) {
      assert s.history[|s.history| - 1] == token;
      var until := s.lease.value.expiresAt;
      assert Move(s, SendExpired(e, token, at)).Some? ==>
               SendExpiration(s, token, until, at) == Ok(Expiry(token, until, false));
    }
  }

  /**
   Where the two part: the projector would take a not-sent settlement that the boundary refuses exactly on a
   claimed effect whose unexpired lease the callback holds.
   */
  lemma BoundaryRefusesClaimed(s: EffectState, e: EffectId, token: Token, to: Status, at: Time)
    requires Fenced(s) && s.updatedAt <= at
    requires to == Delivered || to == NotSent || to == DeliveryUnknown
    ensures Move(s, Settled(e, to, Some(token), at)).Some? && WorkerResult(s, token, token, at) != Ok(Live(token))
            <==> s.status == Claimed && to == NotSent && Holds(s, token) && at < s.lease.value.expiresAt
    ensures s.status == Claimed && Holds(s, token) ==> WorkerResult(s, token, token, at) == Err(PhaseInvalid)
  {
    FencedCallbackIsSorted(s, token, at);
    BoundaryAgreesWithProjector(s, e, token, to, at);
    if Holds(s, token) {
      assert s.history[|s.history| - 1] == token;
    }
  }

  /** A claimed effect can be in that case. */
  lemma BoundaryAndProjectorCanDisagree(e: EffectId)
    ensures exists s, token, at ::
              && Fenced(s) && Move(s, Settled(e, NotSent, Some(token), at)).Some?
              && WorkerResult(s, token, token, at) == Err(PhaseInvalid)
  {
    var token := Token(LeaseId(1, e), "owner", 1);
    var s := EffectState(Claimed, Some(Lease(token, 0, 0, 10)), 1, Some(LeaseId(1, e)), [token], 10, 0);
    assert Fenced(s) && Holds(s, token);
    BoundaryRefusesClaimed(s, e, token, NotSent, 5);
  }
}
