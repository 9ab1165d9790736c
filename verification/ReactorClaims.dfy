/**
 What a reactor's fresh claims stand for: in every run each is a claim the journal recorded for that reactor.
 */
module ReactorClaims {
  import opened Outbox
  import opened Boundary
  import opened Reactor
  import R = Reactor

  predicate Recorded(j: Journal, e: EffectId, token: Token) {
    exists i :: 0 <= i < |Events(j)| && Events(j)[i].ClaimedBy? && Events(j)[i].effect == e && Uses(Events(j)[i], token)
  }

  lemma RecordedGrows(j: Journal, b: Batch, e: EffectId, token: Token)
    requires Recorded(j, e, token)
    ensures Recorded(j + [b], e, token)
  {
    EventsAppend(j, b);
    var i :| 0 <= i < |Events(j)| && Events(j)[i].ClaimedBy? && Events(j)[i].effect == e && Uses(Events(j)[i], token);
    assert Events(j + [b])[i] == Events(j)[i];
  }

  lemma RecordedIsIssued(j: Journal, e: EffectId, token: Token)
    requires Sound(j) && Recorded(j, e, token)
    ensures e in Projection(j) && token in Projection(j)[e].history
  {
    var i :| 0 <= i < |Events(j)| && Events(j)[i].ClaimedBy? && Events(j)[i].effect == e && Uses(Events(j)[i], token);
    UsedTokenIsIssued(Events(j), i, token);
  }

  /** A returned claim names a token the journal issued, to the owner and under the lease id that were asked for. */
  lemma ReturnedClaimIsRecorded(j: Journal, c: Call, r: Result, e: EffectId, leaseId: LeaseId, owner: string)
    requires Sound(j) && Receipted(j, c, r)
    requires c.space == InternalActions && c.content.OfAction? && c.content.action == ClaimAction(e, leaseId, owner)
    ensures r.Leased? && r.effect == e && r.status == Claimed && r.token.leaseId == leaseId && r.token.owner == owner
    ensures Recorded(j, e, r.token)
  {
    var i :| 0 <= i < |j| && Answers(j[i], c) && j[i].result == r;
    BatchEventIsReplayed(j, i, 0);
  }

  /** A claim under way asks for the token the reactor will keep; the fresh claims it keeps were recorded for it. */
  ghost predicate OwnClaims(cfg: Config, run: RunId, j: Journal, r: Reactor) {
    && (forall e :: e in r.claims ==>
          r.claims[e].leaseId == LeaseId(run, e) && r.claims[e].owner == cfg.owner && Recorded(j, e, r.claims[e]))
    && (r.phase.Claiming? ==>
          var c := r.phase.running.call;
          && c.space == InternalActions && c.content.OfAction?
          && c.content.action == ClaimAction(r.phase.effect, r.phase.token.leaseId, r.phase.token.owner)
          && r.phase.token.leaseId == LeaseId(run, r.phase.effect) && r.phase.token.owner == cfg.owner)
  }

  lemma OwnClaimsGrow(cfg: Config, run: RunId, j: Journal, j': Journal, r: Reactor)
    requires OwnClaims(cfg, run, j, r) && (j' == j || (|j'| == |j| + 1 && j == j'[..|j|]))
    ensures OwnClaims(cfg, run, j', r)
  {
    if j' != j {
      assert j' == j + [j'[|j|]];
      forall e | e in r.claims
        ensures Recorded(j', e, r.claims[e])
      {
        RecordedGrows(j, j'[|j|], e, r.claims[e]);
      }
    }
  }

  lemma StepKeepsOwnClaims(cfg: Config, run: RunId, j: Journal, entries: seq<Entry>, r: Reactor, step: R.Step,
                           j': Journal, r': Reactor, entered: seq<Entry>)
    requires Sound(j) && ReactorSound(j, entries, run, r) && OwnClaims(cfg, run, j, r)
    requires ReactorStep(cfg, run, j, r, step, j', r', entered)
    ensures OwnClaims(cfg, run, j', r')
    ensures j' == j || (|j'| == |j| + 1 && j == j'[..|j|])
  {
    match step
    case CallBoundary(pc) =>
      CallStepSound(r.phase.running.call, cfg.max, j, r.phase.running.pc, j', pc);
      OwnClaimsGrow(cfg, run, j, j', r');
    case BoundaryDone =>
      if r.phase.Claiming? {
        ReturnedClaimIsRecorded(j, r.phase.running.call, r.phase.running.pc.result, r.phase.effect,
                                r.phase.token.leaseId, r.phase.token.owner);
      }
    case _ =>
  }

  ghost predicate FleetClaims(cfg: Config, f: Fleet) {
    forall run :: run in f.reactors ==> OwnClaims(cfg, run, f.journal, f.reactors[run])
  }

  lemma NextKeepsClaims(cfg: Config, f: Fleet, m: R.Move, f': Fleet)
    requires FleetSound(f) && FleetClaims(cfg, f) && R.Next(cfg, f, m, f')
    ensures FleetClaims(cfg, f')
  {
    match m
    case Elsewhere(b) =>
      forall run | run in f.reactors
        ensures OwnClaims(cfg, run, f'.journal, f.reactors[run])
      {
        OwnClaimsGrow(cfg, run, f.journal, f'.journal, f.reactors[run]);
      }
    case React(own, step) =>
      StepKeepsOwnClaims(cfg, own, f.journal, f.entries, f.reactors[own], step, f'.journal, f'.reactors[own],
                         f'.entries[|f.entries|..]);
      forall run | run in f.reactors && run != own
        ensures OwnClaims(cfg, run, f'.journal, f.reactors[run])
      {
        OwnClaimsGrow(cfg, run, f.journal, f'.journal, f.reactors[run]);
      }
    case _ =>
  }

  lemma {:induction false} RunKeepsClaims(cfg: Config, run: seq<Fleet>, moves: seq<R.Move>, n: nat)
    requires R.IsRun(cfg, run, moves) && n < |run|
    ensures FleetClaims(cfg, run[n])
  {
    if n > 0 {
      R.RunIsSound(cfg, run, moves, n - 1);
      RunKeepsClaims(cfg, run, moves, n - 1);
      NextKeepsClaims(cfg, run[n - 1], moves[n - 1], run[n]);
    }
  }

  /** In every run a reactor's fresh claim is a token of the effect's fencing history, issued to that reactor. */
  lemma FreshClaimWasIssued(cfg: Config, run: seq<Fleet>, moves: seq<R.Move>, n: nat, own: RunId, e: EffectId)
    requires R.IsRun(cfg, run, moves) && n < |run| && own in run[n].reactors && e in run[n].reactors[own].claims
    ensures var token := run[n].reactors[own].claims[e];
            && token.leaseId == LeaseId(own, e) && token.owner == cfg.owner
            && e in Projection(run[n].journal) && token in Projection(run[n].journal)[e].history
  {
    R.RunIsSound(cfg, run, moves, n);
    RunKeepsClaims(cfg, run, moves, n);
    RecordedIsIssued(run[n].journal, e, run[n].reactors[own].claims[e]);
  }
}
