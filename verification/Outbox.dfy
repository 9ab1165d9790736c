/**
 The provider-effect outbox as the projector maintains it: the status of each effect, its lease and
 its fencing history, and the event that moves each one. An event the projector refuses is `None`.
 The projector also looks at the surrounding work order before it accepts a worker action; that can
 only refuse more events, so every property proved here for all accepted sequences still holds.
 */
module Outbox {
  import opened Basics

  type RunId = nat
  type EffectId = string

  datatype LeaseId = LeaseId(run: RunId, effect: EffectId)
  datatype Token = Token(leaseId: LeaseId, owner: string, generation: int)
  datatype Lease = Lease(token: Token, claimedAt: Time, heartbeatAt: Time, expiresAt: Time)

  datatype Status = Pending | Claimed | Sending | DeliveryUnknown | Delivered | NotSent | Cancelled

  datatype EffectState = EffectState(
    status: Status,
    lease: Option<Lease>,
    leaseGeneration: nat,
    lastLeaseId: Option<LeaseId>,
    history: seq<Token>,
    leaseMs: nat,
    updatedAt: Time)

  datatype Event =
    | Enqueued(effect: EffectId, leaseMs: nat, at: Time)
    | ClaimedBy(effect: EffectId, lease: Lease, at: Time)
    | SendBegun(effect: EffectId, token: Token, at: Time)
    | LeaseRenewed(effect: EffectId, lease: Lease, at: Time)
    | Requeued(effect: EffectId, token: Token, at: Time)
    | SendExpired(effect: EffectId, token: Token, at: Time)
    | Settled(effect: EffectId, to: Status, fence: Option<Token>, at: Time)
    | CancelledLocally(effect: EffectId, at: Time)

  type Effects = map<EffectId, EffectState>

  /** The transition table of the outbox. */
  predicate Allowed(from: Status, to: Status) {
    match from
    case Pending => to == Claimed || to == Cancelled
    case Claimed => to == Pending || to == Sending || to == NotSent || to == Cancelled
    case Sending => to == Delivered || to == NotSent || to == DeliveryUnknown
    case DeliveryUnknown => to == Delivered || to == NotSent
    case _ => false
  }

  predicate BeforeSend(s: Status) {
    s == Pending || s == Claimed
  }

  predicate Holds(s: EffectState, token: Token) {
    s.lease.Some? && s.lease.value.token == token
  }

  /** The status and the lease the event leaves behind, or None when the projector refuses it. */
  function Move(s: EffectState, ev: Event): Option<EffectState>
    requires !ev.Enqueued?
  {
    if ev.at < s.updatedAt then None else
    match ev
    case ClaimedBy(_, lease, at) =>
      if Allowed(s.status, Claimed)
         && lease.token.generation == s.leaseGeneration + 1
         && lease.claimedAt == at && lease.heartbeatAt == at
         && lease.expiresAt == at + s.leaseMs && s.leaseMs > 0
         && |s.history| == s.leaseGeneration
      then Some(s.(status := Claimed, lease := Some(lease), leaseGeneration := s.leaseGeneration + 1,
                   lastLeaseId := Some(lease.token.leaseId), history := s.history + [lease.token],
                   updatedAt := at))
      else None
    case SendBegun(_, token, at) =>
      if Allowed(s.status, Sending) && Holds(s, token) && at < s.lease.value.expiresAt
      then Some(s.(status := Sending, updatedAt := at))
      else None
    case LeaseRenewed(_, lease, at) =>
      if (s.status == Claimed || s.status == Sending) && Holds(s, lease.token)
         && lease.claimedAt == s.lease.value.claimedAt
         && s.lease.value.heartbeatAt < lease.heartbeatAt && s.lease.value.expiresAt < lease.expiresAt
         && lease.heartbeatAt == at && lease.expiresAt == at + s.leaseMs && at < s.lease.value.expiresAt
      then Some(s.(lease := Some(lease), updatedAt := at))
      else None
    case Requeued(_, token, at) =>
      if Allowed(s.status, Pending) && Holds(s, token) && s.lease.value.expiresAt <= at
      then Some(s.(status := Pending, lease := None, updatedAt := at))
      else None
    case SendExpired(_, token, at) =>
      if Allowed(s.status, DeliveryUnknown) && Holds(s, token) && s.lease.value.expiresAt <= at
      then Some(s.(status := DeliveryUnknown, lease := None, updatedAt := at))
      else None
    case Settled(_, to, fence, at) =>
      if Allowed(s.status, to) && (to == Delivered || to == NotSent || to == DeliveryUnknown)
         && (if s.status == DeliveryUnknown then fence.None?
             else fence.Some? && Holds(s, fence.value) && at < s.lease.value.expiresAt)
      then Some(s.(status := to, lease := None, updatedAt := at))
      else None
    case CancelledLocally(_, at) =>
      if Allowed(s.status, Cancelled)
      then Some(s.(status := Cancelled, lease := None, updatedAt := at))
      else None
  }

  function Apply(effects: Effects, ev: Event): Option<Effects> {
    if ev.Enqueued? then
      if ev.effect in effects then None
      else Some(effects[ev.effect := EffectState(Pending, None, 0, None, [], ev.leaseMs, ev.at)])
    else if ev.effect !in effects then None
    else match Move(effects[ev.effect], ev)
      case None => None
      case Some(s) => Some(effects[ev.effect := s])
  }

  /** Replay of a whole event sequence from the empty projection. */
  function Replay(evs: seq<Event>): Option<Effects> {
    if evs == [] then Some(map[])
    else match Replay(evs[..|evs| - 1])
      case None => None
      case Some(effects) => Apply(effects, evs[|evs| - 1])
  }

  // ---------------------------------------------------------------- fencing

  /** A lease is held exactly while claimed or sending, and it is the last token ever issued. */
  predicate Fenced(s: EffectState) {
    && |s.history| == s.leaseGeneration
    && (forall i :: 0 <= i < |s.history| ==> s.history[i].generation == i + 1)
    && (s.lease.Some? <==> s.status == Claimed || s.status == Sending)
    && (s.lease.Some? ==> s.history != [] && s.history[|s.history| - 1] == s.lease.value.token)
    && (s.lastLeaseId.Some? <==> s.history != [])
    && (s.history != [] ==> s.lastLeaseId.value == s.history[|s.history| - 1].leaseId)
  }

  predicate AllFenced(effects: Effects) {
    forall e :: e in effects ==> Fenced(effects[e])
  }

  lemma MoveKeepsFenced(s: EffectState, ev: Event)
    requires !ev.Enqueued? && Fenced(s) && Move(s, ev).Some?
    ensures Fenced(Move(s, ev).value)
    ensures s.history <= Move(s, ev).value.history
  {
  }

  /** Whatever was replayed, every effect's lease and fencing history agree. */
  lemma {:induction false} ReplayFenced(evs: seq<Event>)
    requires Replay(evs).Some?
    ensures AllFenced(Replay(evs).value)
  {
    if evs != [] {
      var before, ev := evs[..|evs| - 1], evs[|evs| - 1];
      ReplayFenced(before);
      if !ev.Enqueued? {
        MoveKeepsFenced(Replay(before).value[ev.effect], ev);
      }
    }
  }

  /** No status reached after a send begins leads back to pending or claimed. */
  lemma MoveNeverReopens(s: EffectState, ev: Event)
    requires !ev.Enqueued? && Move(s, ev).Some? && !BeforeSend(s.status)
    ensures !BeforeSend(Move(s, ev).value.status)
    ensures !ev.SendBegun?
  {
  }

  // ---------------------------------------------------------------- whose lease it is

  /** The token an event presents, when it presents one. */
  function Presents(ev: Event): Option<Token> {
    match ev
    case SendBegun(_, token, _) => Some(token)
    case LeaseRenewed(_, lease, _) => Some(lease.token)
    case Requeued(_, token, _) => Some(token)
    case SendExpired(_, token, _) => Some(token)
    case Settled(_, _, fence, _) => fence
    case _ => None
  }

  /**
   Until it expires a lease is its holder's: what else touches the effect is a cancellation of a claim whose send has
   not begun. The holder may begin the send, renew, and settle.
   */
  lemma LeaseIsExclusive(s: EffectState, ev: Event)
    requires Fenced(s) && s.lease.Some? && !ev.Enqueued? && s.updatedAt <= ev.at < s.lease.value.expiresAt
    ensures Move(s, ev).Some? ==>
              Presents(ev) == Some(s.lease.value.token) || (ev.CancelledLocally? && s.status == Claimed)
    ensures Move(s, ev).Some? && Move(s, ev).value.lease.Some? ==>
              && Move(s, ev).value.lease.value.token == s.lease.value.token
              && s.lease.value.expiresAt <= Move(s, ev).value.lease.value.expiresAt
    ensures ev.SendBegun? ==> (Move(s, ev).Some? <==> s.status == Claimed && Holds(s, ev.token))
    ensures ev.Settled? ==>
              (Move(s, ev).Some? <==>
                && ev.fence == Some(s.lease.value.token)
                && (ev.to == NotSent || (s.status == Sending && (ev.to == Delivered || ev.to == DeliveryUnknown))))
    ensures ev.LeaseRenewed? && s.lease.value.heartbeatAt < ev.at && s.lease.value.expiresAt < ev.at + s.leaseMs ==>
              (Move(s, ev).Some? <==>
                ev.lease == Lease(s.lease.value.token, s.lease.value.claimedAt, ev.at, ev.at + s.leaseMs))
    ensures ev.CancelledLocally? ==> (Move(s, ev).Some? <==> s.status == Claimed)
    ensures Move(s, ev).Some? ==>
              match ev
              case SendBegun(_, _, _) => Move(s, ev).value == s.(status := Sending, updatedAt := ev.at)
              case LeaseRenewed(_, lease, _) => Move(s, ev).value == s.(lease := Some(lease), updatedAt := ev.at)
              case Settled(_, to, _, _) => Move(s, ev).value == s.(status := to, lease := None, updatedAt := ev.at)
              case _ => Move(s, ev).value == s.(status := Cancelled, lease := None, updatedAt := ev.at)
  {
  }

  /**
   Once it has expired the holder can do nothing with it: a claimed effect is requeued or cancelled, a send that may
   have happened becomes unknown, and nothing else is accepted.
   */
  lemma ExpiredLeaseIsReleased(s: EffectState, ev: Event)
    requires Fenced(s) && s.lease.Some? && !ev.Enqueued? && s.updatedAt <= ev.at && s.lease.value.expiresAt <= ev.at
    ensures Move(s, ev).Some? <==>
              || (s.status == Claimed && (ev.CancelledLocally? || (ev.Requeued? && Holds(s, ev.token))))
              || (s.status == Sending && ev.SendExpired? && Holds(s, ev.token))
    ensures Move(s, ev).Some? ==> Move(s, ev).value.lease.None?
    ensures Move(s, ev).Some? ==>
              Move(s, ev).value.status
              == if ev.Requeued? then Pending else if ev.SendExpired? then DeliveryUnknown else Cancelled
  {
  }

  /** Without a lease: a pending effect is claimed under the next generation or cancelled, an unknown one reconciled. */
  lemma UnleasedMoves(s: EffectState, ev: Event)
    requires Fenced(s) && s.lease.None? && !ev.Enqueued? && s.updatedAt <= ev.at && s.leaseMs > 0
    ensures Move(s, ev).Some? <==>
              || (s.status == Pending && ev.CancelledLocally?)
              || (s.status == Pending && ev.ClaimedBy? && ev.lease.token.generation == s.leaseGeneration + 1
                  && ev.lease == Lease(ev.lease.token, ev.at, ev.at, ev.at + s.leaseMs))
              || (s.status == DeliveryUnknown && ev.Settled? && ev.fence.None?
                  && (ev.to == Delivered || ev.to == NotSent))
    ensures Move(s, ev).Some? && ev.ClaimedBy? ==>
              Move(s, ev).value.status == Claimed && Move(s, ev).value.lease == Some(ev.lease)
    ensures Move(s, ev).Some? && ev.Settled? ==> Move(s, ev).value.status == ev.to
  {
  }

  /** An event is about one effect: a new one when it enqueues, a known one otherwise; it leaves the others alone. */
  lemma ApplyIsLocal(effects: Effects, ev: Event)
    ensures Apply(effects, ev).Some? ==> (ev.Enqueued? <==> ev.effect !in effects)
    ensures ev.Enqueued? && ev.effect !in effects ==> Apply(effects, ev).Some?
    ensures Apply(effects, ev).Some? ==>
              && Apply(effects, ev).value.Keys == effects.Keys + {ev.effect}
              && forall e :: e in effects && e != ev.effect ==> Apply(effects, ev).value[e] == effects[e]
    ensures Apply(effects, ev).Some? && ev.Enqueued? ==>
              var s := Apply(effects, ev).value[ev.effect];
              s.status == Pending && s.lease.None? && s.history == [] && s.leaseMs == ev.leaseMs && s.updatedAt == ev.at
  {
  }

  // ---------------------------------------------------------------- the one send of an effect

  // ---------------------------------------------------------------- issued and released tokens

  /** The event issues the token or presents it. */
  predicate Uses(ev: Event, token: Token) {
    if ev.ClaimedBy? then ev.lease.token == token else Presents(ev) == Some(token)
  }

  /** Once an accepted event has used a token it stays in the effect's history; once released it is never held again. */
  lemma {:induction false} UsedTokenIsIssued(evs: seq<Event>, k: nat, token: Token)
    requires Replay(evs).Some? && k < |evs| && Uses(evs[k], token)
    ensures var e := evs[k].effect; e in Replay(evs).value && token in Replay(evs).value[e].history
    ensures evs[k].Requeued? ==> !Holds(Replay(evs).value[evs[k].effect], token)
  {
    var before, ev, e := evs[..|evs| - 1], evs[|evs| - 1], evs[k].effect;
    ReplayFenced(before);
    if k < |before| {
      UsedTokenIsIssued(before, k, token);
      if ev.effect == e && !ev.Enqueued? {
        MoveKeepsFenced(Replay(before).value[e], ev);
      }
    }
  }

  predicate IsSend(ev: Event, e: EffectId, token: Token) {
    ev.SendBegun? && ev.effect == e && ev.token == token
  }

  predicate HasSend(evs: seq<Event>, e: EffectId, token: Token) {
    exists i :: 0 <= i < |evs| && IsSend(evs[i], e, token)
  }

  lemma HasSendSplit(evs: seq<Event>, e: EffectId, token: Token)
    requires evs != []
    ensures HasSend(evs, e, token)
            <==> HasSend(evs[..|evs| - 1], e, token) || IsSend(evs[|evs| - 1], e, token)
  {
    var before := evs[..|evs| - 1];
    if HasSend(before, e, token) {
      var i :| 0 <= i < |before| && IsSend(before[i], e, token);
      assert IsSend(evs[i], e, token);
    }
    if HasSend(evs, e, token) && !IsSend(evs[|evs| - 1], e, token) {
      var i :| 0 <= i < |evs| && IsSend(evs[i], e, token);
      assert IsSend(before[i], e, token);
    }
  }

  lemma HasSendGrows(evs: seq<Event>, more: seq<Event>, e: EffectId, token: Token)
    requires HasSend(evs, e, token)
    ensures HasSend(evs + more, e, token)
  {
    var i :| 0 <= i < |evs| && IsSend(evs[i], e, token);
    assert IsSend((evs + more)[i], e, token);
  }

  /** An effect whose send has begun is known and is past claiming. */
  lemma {:induction false} SendIsFinal(evs: seq<Event>, e: EffectId, token: Token)
    requires Replay(evs).Some? && HasSend(evs, e, token)
    ensures e in Replay(evs).value && !BeforeSend(Replay(evs).value[e].status)
  {
    var before, ev := evs[..|evs| - 1], evs[|evs| - 1];
    HasSendSplit(evs, e, token);
    if HasSend(before, e, token) {
      SendIsFinal(before, e, token);
      if ev.effect == e && !ev.Enqueued? {
        MoveNeverReopens(Replay(before).value[e], ev);
      }
    }
  }

  /** A replayable journal begins the send of an effect under one token only. */
  lemma {:induction false} SendIsUnique(evs: seq<Event>, e: EffectId, a: Token, b: Token)
    requires Replay(evs).Some? && HasSend(evs, e, a) && HasSend(evs, e, b)
    ensures a == b
  {
    var before, ev := evs[..|evs| - 1], evs[|evs| - 1];
    HasSendSplit(evs, e, a);
    HasSendSplit(evs, e, b);
    if HasSend(before, e, a) && HasSend(before, e, b) {
      SendIsUnique(before, e, a, b);
    } else if HasSend(before, e, a) {
      SendIsFinal(before, e, a);
      MoveNeverReopens(Replay(before).value[e], ev);
    } else if HasSend(before, e, b) {
      SendIsFinal(before, e, b);
      MoveNeverReopens(Replay(before).value[e], ev);
    }
  }

  /** The token a sending effect holds is the token its send began under. */
  lemma {:induction false} SendingLeaseWasSent(evs: seq<Event>, e: EffectId)
    requires Replay(evs).Some? && e in Replay(evs).value && Replay(evs).value[e].status == Sending
    ensures Replay(evs).value[e].lease.Some?
    ensures HasSend(evs, e, Replay(evs).value[e].lease.value.token)
  {
    ReplayFenced(evs);
    if evs != [] {
      var before, ev := evs[..|evs| - 1], evs[|evs| - 1];
      var token := Replay(evs).value[e].lease.value.token;
      HasSendSplit(evs, e, token);
      if !IsSend(ev, e, token) {
        SendingLeaseWasSent(before, e);
      }
    }
  }
}
