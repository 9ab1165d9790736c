/**
 Any number of canonical reactors over one journal. Each runs one `executeOnce` at a time: it plans on
 a replay, drives a boundary call, and for a send goes on to two more replays and the provider entry.
 Reactors crash at any step and lose their `freshClaims`; every other client of the journal is free to
 commit any batch the store and projector accept; clock readings are arbitrary at every step.
 */
module Reactor {
  import opened Basics
  import opened Outbox
  import opened Boundary

  datatype Phase =
    | Idle
    | Claiming(effect: EffectId, token: Token, running: Running)
    | Requeueing(effect: EffectId, running: Running)
    | BeginningSend(effect: EffectId, token: Token, running: Running)
    | SendRecorded(effect: EffectId, token: Token)
    | Authorized(effect: EffectId, token: Token)

  datatype Reactor = Reactor(claims: map<EffectId, Token>, phase: Phase)
  datatype Entry = Entry(run: RunId, effect: EffectId, token: Token)

  /** `entries` records each call of the provider's `executeMutation`, in order. */
  datatype Fleet = Fleet(journal: Journal, reactors: map<RunId, Reactor>, entries: seq<Entry>)

  datatype Config = Config(owner: string, principal: string, max: nat)

  function Projection(j: Journal): Effects {
    match Replay(Events(j))
    case Some(effects) => effects
    case None => map[]
  }

  function InternalCall(cfg: Config, id: SourceId, action: Action, revision: nat): Running {
    Running(Call(InternalActions, id, OfAction(action, revision), cfg.principal), Begin(0))
  }

  /** The token `executeClaim` expects back from the boundary. */
  function ClaimToken(cfg: Config, run: RunId, e: EffectId, s: EffectState): Token {
    Token(LeaseId(run, e), cfg.owner, s.leaseGeneration + 1)
  }

  datatype Step =
    | PlanClaim(effect: EffectId, revision: nat)
    | PlanRequeue(effect: EffectId, revision: nat, now: Time)
    | PlanSend(effect: EffectId, revision: nat, now: Time)
    | CallBoundary(pc: Pc)
    | BoundaryDone
    | Authorize
    | EnterProvider(now: Time)
    | GiveUp

  /** One step of the reactor `run`; `j` and `j'` are the journal around it, `entered` the provider calls. */
  ghost predicate ReactorStep(cfg: Config, run: RunId, j: Journal, r: Reactor, step: Step,
                              j': Journal, r': Reactor, entered: seq<Entry>)
  {
    var effects := Projection(j);
    match step
    case PlanClaim(e, revision) =>
      && r.phase.Idle? && e in effects && effects[e].status == Pending
      && j' == j && entered == []
      && var token := ClaimToken(cfg, run, e, effects[e]);
         r' == r.(phase := Claiming(e, token,
                    InternalCall(cfg, ClaimId(run, e, token.generation),
                                 ClaimAction(e, token.leaseId, token.owner), revision)))
    case PlanRequeue(e, revision, now) =>
      && r.phase.Idle? && e in effects && effects[e].status == Claimed
      && effects[e].lease.Some? && effects[e].lease.value.expiresAt <= now
      && j' == j && entered == []
      && var token := effects[e].lease.value.token;
         r' == r.(phase := Requeueing(e, InternalCall(cfg, RequeueId(e, token), RequeueAction(e, token), revision)))
    case PlanSend(e, revision, now) =>
      && r.phase.Idle? && e in effects && effects[e].status == Claimed
      && effects[e].lease.Some? && now < effects[e].lease.value.expiresAt
      && j' == j && entered == []
      && var token := effects[e].lease.value.token;
         && e in r.claims && r.claims[e] == token
         && r' == r.(phase := BeginningSend(e, token,
                       InternalCall(cfg, SendId(e, token), SendBeginAction(e, token), revision)))
    case CallBoundary(pc) =>
      && (r.phase.Claiming? || r.phase.Requeueing? || r.phase.BeginningSend?)
      && CallStep(r.phase.running.call, cfg.max, j, r.phase.running.pc, j', pc)
      && r' == r.(phase := r.phase.(running := r.phase.running.(pc := pc)))
      && entered == []
    case BoundaryDone =>
      && (r.phase.Claiming? || r.phase.Requeueing? || r.phase.BeginningSend?)
      && r.phase.running.pc.Returned?
      && j' == j && entered == []
      && var e := r.phase.effect;
         if r.phase.Claiming? then
           && r.phase.running.pc.result == Leased(e, Claimed, r.phase.token)
           && r' == Reactor(r.claims[e := r.phase.token], Idle)
         else if r.phase.Requeueing? then
           r' == Reactor(r.claims - {e}, Idle)
         else
           r' == Reactor(r.claims - {e}, SendRecorded(e, r.phase.token))
    case Authorize =>
      // The replay after the send: the query binds the token the projection shows, not the caller's.
      && r.phase.SendRecorded? && r.phase.effect in effects
      && effects[r.phase.effect].status == Sending && effects[r.phase.effect].lease.Some?
      && r' == r.(phase := Authorized(r.phase.effect, effects[r.phase.effect].lease.value.token))
      && j' == j && entered == []
    case EnterProvider(now) =>
      && r.phase.Authorized? && r.phase.effect in effects
      && r' == r.(phase := Idle)
      && j' == j && entered == [Entry(run, r.phase.effect, r.phase.token)]
      && var s := effects[r.phase.effect];
         s.status == Sending && Holds(s, r.phase.token) && now < s.lease.value.expiresAt
    case GiveUp =>
      r' == r.(phase := Idle) && j' == j && entered == []
  }

  datatype Move =
    | Start(run: RunId)
    | React(run: RunId, step: Step)
    | Crash(run: RunId)
    | Elsewhere(batch: Batch)

  ghost predicate Initial(f: Fleet) {
    f.journal == [] && f.reactors == map[] && f.entries == []
  }

  ghost predicate Next(cfg: Config, f: Fleet, m: Move, f': Fleet) {
    match m
    case Start(run) =>
      run !in f.reactors && f' == f.(reactors := f.reactors[run := Reactor(map[], Idle)])
    case React(run, step) =>
      && run in f.reactors && run in f'.reactors
      && f'.reactors == f.reactors[run := f'.reactors[run]]
      && |f.entries| <= |f'.entries| && f'.entries[..|f.entries|] == f.entries
      && ReactorStep(cfg, run, f.journal, f.reactors[run], step,
                     f'.journal, f'.reactors[run], f'.entries[|f.entries|..])
    case Crash(run) =>
      f' == f.(reactors := f.reactors - {run})
    case Elsewhere(b) =>
      && Commit(f.journal, b) == Committed && FollowsAction(b)
      && Replay(Events(f.journal) + b.events).Some?
      && f' == f.(journal := f.journal + [b])
  }

  // ---------------------------------------------------------------- the invariant

  predicate Sent(j: Journal, e: EffectId, token: Token) {
    HasSend(Events(j), e, token)
  }

  predicate Entered(entries: seq<Entry>, e: EffectId) {
    exists i :: 0 <= i < |entries| && entries[i].effect == e
  }

  /** Every provider entry was authorised by the one send of its effect, begun by that reactor's lease. */
  predicate EntriesSound(j: Journal, entries: seq<Entry>) {
    && (forall i :: 0 <= i < |entries| ==>
          Sent(j, entries[i].effect, entries[i].token) && entries[i].token.leaseId.run == entries[i].run)
    && (forall i, k :: 0 <= i < k < |entries| ==> entries[i].effect != entries[k].effect)
  }

  ghost predicate PhaseSound(j: Journal, entries: seq<Entry>, run: RunId, phase: Phase) {
    match phase
    case Idle => true
    case Claiming(e, token, running) =>
      token.leaseId.run == run && PcSound(j, running.call, running.pc)
    case Requeueing(e, running) =>
      PcSound(j, running.call, running.pc)
    case BeginningSend(e, token, running) =>
      && token.leaseId.run == run && PcSound(j, running.call, running.pc)
      && running.call.space == InternalActions
      && running.call.content.OfAction? && running.call.content.action == SendBeginAction(e, token)
      && (Sent(j, e, token) ==> !Entered(entries, e))
    case SendRecorded(e, token) =>
      token.leaseId.run == run && Sent(j, e, token) && !Entered(entries, e)
    case Authorized(e, token) =>
      token.leaseId.run == run && Sent(j, e, token) && !Entered(entries, e)
  }

  ghost predicate ReactorSound(j: Journal, entries: seq<Entry>, run: RunId, r: Reactor) {
    && (forall e :: e in r.claims ==> r.claims[e].leaseId.run == run)
    && PhaseSound(j, entries, run, r.phase)
  }

  ghost predicate FleetSound(f: Fleet) {
    && Sound(f.journal)
    && EntriesSound(f.journal, f.entries)
    && (forall run :: run in f.reactors ==> ReactorSound(f.journal, f.entries, run, f.reactors[run]))
  }

  // ---------------------------------------------------------------- preservation

  lemma EntryWasSent(j: Journal, entries: seq<Entry>, e: EffectId) returns (i: nat)
    requires EntriesSound(j, entries) && Entered(entries, e)
    ensures i < |entries| && entries[i].effect == e && Sent(j, e, entries[i].token)
  {
    i :| 0 <= i < |entries| && entries[i].effect == e;
  }

  /** A batch committed by anyone leaves every reactor and every recorded entry sound. */
  lemma AppendKeepsReactor(j: Journal, b: Batch, entries: seq<Entry>, run: RunId, r: Reactor)
    requires Sound(j) && Sound(j + [b]) && EntriesSound(j, entries) && ReactorSound(j, entries, run, r)
    ensures ReactorSound(j + [b], entries, run, r)
  {
    EventsAppend(j, b);
    if r.phase.Claiming? || r.phase.Requeueing? || r.phase.BeginningSend? {
      ReceiptedGrows(j, b, r.phase.running.call, r.phase.running.pc);
    }
    if r.phase.SendRecorded? || r.phase.Authorized? {
      HasSendGrows(Events(j), b.events, r.phase.effect, r.phase.token);
    }
    if r.phase.BeginningSend? && Sent(j + [b], r.phase.effect, r.phase.token) && Entered(entries, r.phase.effect) {
      var i := EntryWasSent(j, entries, r.phase.effect);
      HasSendGrows(Events(j), b.events, r.phase.effect, entries[i].token);
      SendIsUnique(Events(j + [b]), r.phase.effect, r.phase.token, entries[i].token);
    }
  }

  lemma AppendKeepsEntries(j: Journal, b: Batch, entries: seq<Entry>)
    requires EntriesSound(j, entries)
    ensures EntriesSound(j + [b], entries)
  {
    EventsAppend(j, b);
    forall i | 0 <= i < |entries|
      ensures Sent(j + [b], entries[i].effect, entries[i].token)
    {
      HasSendGrows(Events(j), b.events, entries[i].effect, entries[i].token);
    }
  }

  lemma AppendKeepsFleet(f: Fleet, b: Batch)
    requires FleetSound(f) && Sound(f.journal + [b])
    ensures FleetSound(f.(journal := f.journal + [b]))
  {
    AppendKeepsEntries(f.journal, b, f.entries);
    forall run | run in f.reactors
      ensures ReactorSound(f.journal + [b], f.entries, run, f.reactors[run])
    {
      AppendKeepsReactor(f.journal, b, f.entries, run, f.reactors[run]);
    }
  }

  /** The send the receipt stands for is in the journal. */
  lemma ReturnedSendIsRecorded(j: Journal, c: Call, r: Result, e: EffectId, token: Token)
    requires Sound(j) && Receipted(j, c, r)
    requires c.space == InternalActions && c.content.OfAction? && c.content.action == SendBeginAction(e, token)
    ensures Sent(j, e, token)
  {
    var i :| 0 <= i < |j| && Answers(j[i], c) && j[i].result == r;
    BatchEventIsReplayed(j, i, 0);
    var k :| 0 <= k < |Events(j)| && Events(j)[k] == j[i].events[0];
    assert IsSend(Events(j)[k], e, token);
  }

  /** A returned renewal presented an issued token; a returned requeue released one that is never held again. */
  lemma ReturnedReleaseIsFinal(j: Journal, c: Call, r: Result, e: EffectId, token: Token)
    requires Sound(j) && Receipted(j, c, r) && c.space == InternalActions && c.content.OfAction?
    requires c.content.action == RenewAction(e, token) || c.content.action == RequeueAction(e, token)
    ensures e in Projection(j) && token in Projection(j)[e].history
    ensures c.content.action.RequeueAction? ==> r == Requeuing(e) && !Holds(Projection(j)[e], token)
  {
    var i :| 0 <= i < |j| && Answers(j[i], c) && j[i].result == r;
    BatchEventIsReplayed(j, i, 0);
    var k :| 0 <= k < |Events(j)| && Events(j)[k] == j[i].events[0];
    UsedTokenIsIssued(Events(j), k, token);
  }

  lemma {:induction false} BatchEventIsReplayed(j: Journal, i: nat, n: nat)
    requires i < |j| && n < |j[i].events|
    ensures exists k :: 0 <= k < |Events(j)| && Events(j)[k] == j[i].events[n]
  {
    var before := j[..|j| - 1];
    if i < |before| {
      BatchEventIsReplayed(before, i, n);
      var k :| 0 <= k < |Events(before)| && Events(before)[k] == j[i].events[n];
      assert Events(j)[k] == j[i].events[n];
    } else {
      assert Events(j)[|Events(before)| + n] == j[i].events[n];
    }
  }

  /** A planned send finds no earlier send of the effect: a claimed effect was never sent. */
  lemma PlannedSendIsFirst(j: Journal, e: EffectId, token: Token)
    requires Sound(j) && e in Projection(j) && Projection(j)[e].status == Claimed
    ensures !Sent(j, e, token)
  {
    if Sent(j, e, token) {
      SendIsFinal(Events(j), e, token);
    }
  }

  lemma StepKeepsOwnReactor(cfg: Config, run: RunId, j: Journal, entries: seq<Entry>, r: Reactor, step: Step,
                            r': Reactor)
    requires Sound(j) && EntriesSound(j, entries) && ReactorSound(j, entries, run, r)
    requires !step.CallBoundary? && !step.EnterProvider?
    requires ReactorStep(cfg, run, j, r, step, j, r', [])
    ensures ReactorSound(j, entries, run, r')
  {
    match step
    case PlanSend(e, _, _) =>
      PlannedSendIsFirst(j, e, r.claims[e]);
    case BoundaryDone =>
      if r.phase.BeginningSend? {
        ReturnedSendIsRecorded(j, r.phase.running.call, r.phase.running.pc.result, r.phase.effect, r.phase.token);
      }
    case Authorize =>
      SendingLeaseWasSent(Events(j), r.phase.effect);
      SendIsUnique(Events(j), r.phase.effect, r.phase.token, Projection(j)[r.phase.effect].lease.value.token);
    case _ =>
  }

  /** The reactor that enters the provider is the only one that could: nobody else may enter that effect. */
  lemma EntryKeepsOthers(j: Journal, entries: seq<Entry>, entry: Entry, run: RunId, r: Reactor)
    requires Sound(j) && Sent(j, entry.effect, entry.token) && entry.token.leaseId.run == entry.run
    requires run != entry.run && ReactorSound(j, entries, run, r)
    ensures ReactorSound(j, entries + [entry], run, r)
  {
    if (r.phase.BeginningSend? || r.phase.SendRecorded? || r.phase.Authorized?) && r.phase.effect == entry.effect {
      if Sent(j, entry.effect, r.phase.token) {
        SendIsUnique(Events(j), entry.effect, r.phase.token, entry.token);
      }
    }
  }

  lemma EnterKeepsFleet(cfg: Config, f: Fleet, run: RunId, now: Time, f': Fleet)
    requires FleetSound(f) && Next(cfg, f, React(run, EnterProvider(now)), f')
    ensures FleetSound(f')
  {
    var phase := f.reactors[run].phase;
    var entry := Entry(run, phase.effect, phase.token);
    assert f'.entries == f.entries + [entry];
    forall other | other in f'.reactors && other != run
      ensures ReactorSound(f'.journal, f'.entries, other, f'.reactors[other])
    {
      EntryKeepsOthers(f.journal, f.entries, entry, other, f.reactors[other]);
    }
  }

  /** The journal stays or gains one batch: every reactor that does not move stays sound, and so do the entries. */
  lemma JournalStepKeepsFleet(f: Fleet, j: Journal)
    requires FleetSound(f) && Sound(j) && (j == f.journal || (|j| == |f.journal| + 1 && f.journal == j[..|f.journal|]))
    ensures FleetSound(f.(journal := j))
  {
    if j != f.journal {
      assert j == f.journal + [j[|f.journal|]];
      AppendKeepsFleet(f, j[|f.journal|]);
    }
  }

  /** The phase of the reactor that drives the call: only its program counter has moved. */
  lemma CallKeepsOwnPhase(j: Journal, entries: seq<Entry>, run: RunId, phase: Phase, pc: Pc)
    requires PhaseSound(j, entries, run, phase) && (phase.Claiming? || phase.Requeueing? || phase.BeginningSend?)
    requires PcSound(j, phase.running.call, pc)
    ensures PhaseSound(j, entries, run, phase.(running := phase.running.(pc := pc)))
  {
  }

  lemma OwnReactorStaysSound(j: Journal, entries: seq<Entry>, run: RunId, r: Reactor, pc: Pc)
    requires ReactorSound(j, entries, run, r)
    requires r.phase.Claiming? || r.phase.Requeueing? || r.phase.BeginningSend?
    requires PcSound(j, r.phase.running.call, pc)
    ensures ReactorSound(j, entries, run, r.(phase := r.phase.(running := r.phase.running.(pc := pc))))
  {
    CallKeepsOwnPhase(j, entries, run, r.phase, pc);
  }

  lemma BoundaryKeepsFleet(cfg: Config, f: Fleet, run: RunId, pc: Pc, f': Fleet)
    requires FleetSound(f) && Next(cfg, f, React(run, CallBoundary(pc)), f')
    ensures FleetSound(f')
  {
    var r := f.reactors[run];
    CallStepSound(r.phase.running.call, cfg.max, f.journal, r.phase.running.pc, f'.journal, pc);
    assert f'.entries == f.entries;
    var g := f.(journal := f'.journal);
    JournalStepKeepsFleet(f, f'.journal);
    OwnReactorStaysSound(g.journal, g.entries, run, g.reactors[run], pc);
    forall other | other in f'.reactors
      ensures ReactorSound(f'.journal, f'.entries, other, f'.reactors[other])
    {
      if other != run {
        assert f'.reactors[other] == g.reactors[other];
      }
    }
  }

  lemma NextKeepsFleet(cfg: Config, f: Fleet, m: Move, f': Fleet)
    requires FleetSound(f) && Next(cfg, f, m, f')
    ensures FleetSound(f')
  {
    match m
    case Start(run) =>
    case Crash(run) =>
    case Elsewhere(b) =>
      CommitKeepsSound(f.journal, b);
      AppendKeepsFleet(f, b);
    case React(run, step) =>
      if step.EnterProvider? {
        EnterKeepsFleet(cfg, f, run, step.now, f');
      } else if step.CallBoundary? {
        BoundaryKeepsFleet(cfg, f, run, step.pc, f');
      } else {
        assert f'.entries == f.entries;
        StepKeepsOwnReactor(cfg, run, f.journal, f.entries, f.reactors[run], step, f'.reactors[run]);
      }
  }

  /** The provider may be entered exactly while the projector would accept the delivery at that time. */
  lemma EntryCouldSettle(cfg: Config, run: RunId, j: Journal, r: Reactor, now: Time)
    requires r.phase.Authorized? && r.phase.effect in Projection(j)
    requires Projection(j)[r.phase.effect].status == Sending && Projection(j)[r.phase.effect].updatedAt <= now
    ensures var e, token := r.phase.effect, r.phase.token;
            ReactorStep(cfg, run, j, r, EnterProvider(now), j, r.(phase := Idle), [Entry(run, e, token)]) <==>
            Outbox.Move(Projection(j)[e], Settled(e, Delivered, Some(token), now)).Some?
  {
  }

  // ---------------------------------------------------------------- all runs

  ghost predicate IsRun(cfg: Config, run: seq<Fleet>, moves: seq<Move>) {
    && |run| == |moves| + 1
    && Initial(run[0])
    && (forall i :: 0 <= i < |moves| ==> Next(cfg, run[i], moves[i], run[i + 1]))
  }

  lemma {:induction false} RunIsSound(cfg: Config, run: seq<Fleet>, moves: seq<Move>, n: nat)
    requires IsRun(cfg, run, moves) && n < |run|
    ensures FleetSound(run[n])
  {
    if n > 0 {
      RunIsSound(cfg, run, moves, n - 1);
      NextKeepsFleet(cfg, run[n - 1], moves[n - 1], run[n]);
    } else {
      assert Events(run[0].journal) == [];
    }
  }

  /**
   In every run the provider mutation of an effect is entered at most once; the entry was made by the
   reactor whose run id is in the effect's lease, under the only token its send ever began with.
   */
  lemma ProviderEnteredAtMostOnce(cfg: Config, run: seq<Fleet>, moves: seq<Move>, n: nat, i: nat, k: nat)
    requires IsRun(cfg, run, moves) && n < |run| && i < |run[n].entries| && k < |run[n].entries|
    ensures run[n].entries[i].effect == run[n].entries[k].effect ==> i == k
    ensures run[n].entries[i].token.leaseId.run == run[n].entries[i].run
    ensures Sent(run[n].journal, run[n].entries[i].effect, run[n].entries[i].token)
  {
    RunIsSound(cfg, run, moves, n);
    assert i < k || k < i || i == k;
  }
}
