/**
 The three receipt boundaries (command, observation, internal action) over one append-only journal.
 Each `execute` call is the same loop: replay the journal, return a durable receipt if there is one,
 otherwise build a candidate batch that closes with its receipt, and commit it by compare-and-swap
 on the journal length. Calls interleave freely, crash anywhere and lose commit responses.
 A content hash stands for the content itself, so equal hashes mean equal content.
 */
module Boundary {
  import opened Basics
  import opened Outbox

  datatype Source = Command | Observation | ProviderSettlement | InternalAction
  datatype Namespace = Commands | Observations | InternalActions

  function NamespaceOf(s: Source): Namespace {
    match s
    case Command => Commands
    case Observation => Observations
    case ProviderSettlement => Observations
    case InternalAction => InternalActions
  }

  datatype Action =
    | ClaimAction(effect: EffectId, leaseId: LeaseId, owner: string)
    | SendBeginAction(effect: EffectId, token: Token)
    | RenewAction(effect: EffectId, token: Token)
    | RequeueAction(effect: EffectId, token: Token)

  datatype Content = OfAction(action: Action, revision: nat) | OfEnvelope(text: string)
  datatype Identity = Identity(source: Source, content: Content, principal: string)

  /** Source ids: the reactor derives its ids from what they identify, other callers choose theirs. */
  datatype SourceId =
    | ClaimId(run: RunId, effect: EffectId, nextGeneration: int)
    | SendId(effect: EffectId, token: Token)
    | RequeueId(effect: EffectId, token: Token)
    | ChosenId(text: string)

  datatype Result = Leased(effect: EffectId, status: Status, token: Token)
                  | Requeuing(effect: EffectId)
                  | Reply(text: string)

  datatype Batch = Batch(id: SourceId, expected: nat, identity: Identity, events: seq<Event>, result: Result)
  type Journal = seq<Batch>

  /** The events an internal action commits and the result its receipt repeats. */
  predicate FollowsAction(b: Batch) {
    b.identity.source == InternalAction ==>
      && b.identity.content.OfAction?
      && |b.events| == 1
      && match b.identity.content.action
         case ClaimAction(e, leaseId, owner) =>
           && b.events[0].ClaimedBy? && b.events[0].effect == e
           && b.events[0].lease.token.leaseId == leaseId && b.events[0].lease.token.owner == owner
           && b.result == Leased(e, Claimed, b.events[0].lease.token)
         case SendBeginAction(e, token) =>
           IsSend(b.events[0], e, token) && b.result == Leased(e, Sending, token)
         case RenewAction(e, token) =>
           && b.events[0].LeaseRenewed? && b.events[0].effect == e && b.events[0].lease.token == token
         case RequeueAction(e, token) =>
           && b.events[0].Requeued? && b.events[0].effect == e && b.events[0].token == token
           && b.result == Requeuing(e)
  }

  function Events(j: Journal): seq<Event> {
    if j == [] then [] else Events(j[..|j| - 1]) + j[|j| - 1].events
  }

  lemma EventsAppend(j: Journal, b: Batch)
    ensures Events(j + [b]) == Events(j) + b.events
  {
    assert (j + [b])[..|j|] == j;
  }

  predicate UniqueIds(j: Journal) {
    forall a, b :: 0 <= a < b < |j| ==> j[a].id != j[b].id
  }

  /** What every journal the store ever holds satisfies. */
  predicate Sound(j: Journal) {
    && UniqueIds(j)
    && Replay(Events(j)).Some?
    && (forall i :: 0 <= i < |j| ==> FollowsAction(j[i]) && j[i].expected == i)
  }

  // ---------------------------------------------------------------- the event store

  predicate Contains(j: Journal, id: SourceId) {
    exists i :: 0 <= i < |j| && j[i].id == id
  }

  function Find(j: Journal, id: SourceId): (i: nat)
    requires Contains(j, id)
    ensures i < |j| && j[i].id == id
  {
    if j[|j| - 1].id == id then |j| - 1
    else Find(j[..|j| - 1], id)
  }

  datatype StoreReply = Committed | Idempotent | BatchConflict | RevisionConflict

  function Commit(j: Journal, b: Batch): (reply: StoreReply) {
    if Contains(j, b.id) then (if j[Find(j, b.id)] == b then Idempotent else BatchConflict)
    else if b.expected != |j| then RevisionConflict
    else Committed
  }

  lemma CommitKeepsSound(j: Journal, b: Batch)
    requires Sound(j) && FollowsAction(b) && Commit(j, b) == Committed
    requires Replay(Events(j) + b.events).Some?
    ensures Sound(j + [b])
  {
    EventsAppend(j, b);
    var longer := j + [b];
    forall a, c | 0 <= a < c < |longer|
      ensures longer[a].id != longer[c].id
    {
      assert longer[a] == j[a] && (c < |j| ==> longer[c] == j[c]);
    }
    forall i | 0 <= i < |longer|
      ensures FollowsAction(longer[i]) && longer[i].expected == i
    {
      assert i < |j| ==> longer[i] == j[i];
    }
  }

  // ---------------------------------------------------------------- one execute call

  datatype Call = Call(space: Namespace, id: SourceId, content: Content, principal: string)

  datatype Lookup = Found(result: Result) | IdConflict | NotFound

  /** The receipt a batch leaves is addressed to this call: same namespace, content and principal. */
  predicate Answers(b: Batch, c: Call) {
    && b.id == c.id
    && NamespaceOf(b.identity.source) == c.space
    && b.identity.content == c.content
    && b.identity.principal == c.principal
  }

  function ReadReceipt(j: Journal, c: Call): Lookup {
    if !Contains(j, c.id) then NotFound
    else
      var b := j[Find(j, c.id)];
      if NamespaceOf(b.identity.source) != c.space
      then (if c.space == Observations then IdConflict else NotFound)
      else if Answers(b, c) then Found(b.result) else IdConflict
  }

  datatype Pc =
    | Begin(attempt: nat)
    | Candidate(attempt: nat, revision: nat)
    | Reconcile(attempt: nat, retry: bool)
    | Returned(result: Result)
    | Failed

  function NextAttempt(attempt: nat, max: nat): Pc {
    if attempt < max then Begin(attempt + 1) else Failed
  }

  /** A batch the call may offer: built on its snapshot, and accepted there by the projector. */
  ghost predicate Offers(c: Call, j: Journal, revision: nat, b: Batch)
    requires revision <= |j|
  {
    && b.expected == revision
    && Answers(b, c)
    && FollowsAction(b)
    && Replay(Events(j[..revision]) + b.events).Some?
  }

  /** Where a call stands after offering `b`: the store's reply, or a failure that hides it. */
  ghost predicate AfterCommit(c: Call, max: nat, j: Journal, attempt: nat, b: Batch, j': Journal, p': Pc) {
    var answer := Commit(j, b);
    || (answer == Committed && j' == j + [b] && (p' == Returned(b.result) || p' == Reconcile(attempt, false)))
    || (answer != RevisionConflict && j' == j && p' == Reconcile(attempt, false))
    // The revision moved, or the journal lock was busy.
    || (j' == j && p' == if c.space == Observations then Reconcile(attempt, true) else NextAttempt(attempt, max))
  }

  ghost predicate CallStep(c: Call, max: nat, j: Journal, p: Pc, j': Journal, p': Pc) {
    match p
    case Begin(attempt) =>
      && j' == j
      && (p' == Failed || match ReadReceipt(j, c)
                          case Found(r) => p' == Returned(r)
                          case IdConflict => p' == Failed
                          case NotFound => p' == Candidate(attempt, |j|))
    case Candidate(attempt, revision) =>
      || (j' == j && p' == Failed)
      || (revision <= |j| && exists b :: Offers(c, j, revision, b) && AfterCommit(c, max, j, attempt, b, j', p'))
    case Reconcile(attempt, retry) =>
      && j' == j
      && (p' == Failed || match ReadReceipt(j, c)
                          case Found(r) => p' == Returned(r)
                          case IdConflict => p' == Failed
                          case NotFound => p' == if retry then NextAttempt(attempt, max) else Failed)
    case Returned(_) => false
    case Failed => false
  }

  /** The result is the one stored in the receipt this call is entitled to. */
  ghost predicate Receipted(j: Journal, c: Call, r: Result) {
    exists i :: 0 <= i < |j| && Answers(j[i], c) && j[i].result == r
  }

  ghost predicate PcSound(j: Journal, c: Call, p: Pc) {
    && (p.Candidate? ==> p.revision <= |j|)
    && (p.Returned? ==> Receipted(j, c, p.result))
  }

  lemma ReceiptedGrows(j: Journal, b: Batch, c: Call, p: Pc)
    requires PcSound(j, c, p)
    ensures PcSound(j + [b], c, p)
  {
    if p.Returned? {
      var i :| 0 <= i < |j| && Answers(j[i], c) && j[i].result == p.result;
      assert (j + [b])[i] == j[i];
    }
  }

  /** One step of one call keeps the journal sound, appends at most one batch and returns only receipts. */
  lemma CallStepSound(c: Call, max: nat, j: Journal, p: Pc, j': Journal, p': Pc)
    requires Sound(j) && PcSound(j, c, p) && CallStep(c, max, j, p, j', p')
    ensures Sound(j') && PcSound(j', c, p')
    ensures j' == j || (|j'| == |j| + 1 && j == j'[..|j|])
  {
    if p.Candidate? && !(j' == j && p' == Failed) {
      var b :| Offers(c, j, p.revision, b) && AfterCommit(c, max, j, p.attempt, b, j', p');
      if j' != j {
        assert j[..p.revision] == j;
        CommitKeepsSound(j, b);
        assert Answers(j'[|j|], c);
      }
    }
  }

  /** What a lookup says, in terms of the one batch that can carry the call's id. */
  lemma LookupIsExact(j: Journal, c: Call, r: Result)
    requires Sound(j)
    ensures ReadReceipt(j, c) == Found(r) <==> Receipted(j, c, r)
    ensures ReadReceipt(j, c) == IdConflict <==>
              exists i :: 0 <= i < |j| && j[i].id == c.id && !Answers(j[i], c)
                          && (c.space == Observations || NamespaceOf(j[i].identity.source) == c.space)
    ensures ReadReceipt(j, c) == NotFound <==>
              forall i :: 0 <= i < |j| && j[i].id == c.id ==>
                c.space != Observations && NamespaceOf(j[i].identity.source) != c.space
  {
    if Contains(j, c.id) {
      var n := Find(j, c.id);
      assert forall i :: 0 <= i < |j| && j[i].id == c.id ==> i == n;
    }
  }

  /** What the store answers to a batch. */
  lemma CommitIsExact(j: Journal, b: Batch)
    requires UniqueIds(j)
    ensures Commit(j, b) == Committed <==> b.expected == |j| && forall i :: 0 <= i < |j| ==> j[i].id != b.id
    ensures Commit(j, b) == Idempotent <==> b in j
    ensures Commit(j, b) == BatchConflict <==> exists i :: 0 <= i < |j| && j[i].id == b.id && j[i] != b
    ensures Commit(j, b) == RevisionConflict <==> b.expected != |j| && forall i :: 0 <= i < |j| ==> j[i].id != b.id
  {
    if Contains(j, b.id) {
      var n := Find(j, b.id);
      assert forall i :: 0 <= i < |j| && j[i].id == b.id ==> i == n;
      assert b in j ==> exists i :: 0 <= i < |j| && j[i] == b;
    }
  }

  /** Reading the journal, a call can return exactly the result stored for it, and with one stored goes nowhere else. */
  lemma ReturnsExactlyTheReceipt(c: Call, max: nat, j: Journal, p: Pc, r: Result)
    requires Sound(j) && (p.Begin? || p.Reconcile?)
    ensures CallStep(c, max, j, p, j, Returned(r)) <==> Receipted(j, c, r)
    ensures Receipted(j, c, r) ==> forall j', p' :: CallStep(c, max, j, p, j', p') ==> p' == Returned(r) || p' == Failed
  {
    LookupIsExact(j, c, r);
  }

  /** A call whose id no batch carries reaches the store, and its batch is committed if nobody was faster. */
  lemma FreshCallCommits(c: Call, max: nat, j: Journal, attempt: nat, b: Batch)
    requires Sound(j) && Offers(c, j, |j|, b) && forall i :: 0 <= i < |j| ==> j[i].id != c.id
    ensures CallStep(c, max, j, Begin(attempt), j, Candidate(attempt, |j|))
    ensures CallStep(c, max, j, Candidate(attempt, |j|), j + [b], Returned(b.result))
    ensures forall r: Result :: Receipted(j + [b], c, r) <==> r == b.result
  {
    CommitIsExact(j, b);
    assert AfterCommit(c, max, j, attempt, b, j + [b], Returned(b.result));
    assert (j + [b])[|j|] == b;
    forall r: Result
      ensures Receipted(j + [b], c, r) <==> r == b.result
    {
      assert Receipted(j + [b], c, b.result);
      assert forall i :: 0 <= i < |j| ==> (j + [b])[i] == j[i];
    }
  }

  /** A call that lost the race for the journal: an observation looks for its receipt again, the others start over. */
  function AfterLostRace(c: Call, max: nat, attempt: nat): Pc {
    if c.space == Observations then Reconcile(attempt, true)
    else if attempt < max then Begin(attempt + 1)
    else Failed
  }

  /** Beside success and failure, an offer is lost to another writer or its answer does not arrive. */
  lemma OfferOutcomes(c: Call, max: nat, j: Journal, attempt: nat, revision: nat, b: Batch)
    requires Sound(j) && revision <= |j| && Offers(c, j, revision, b)
    ensures CallStep(c, max, j, Candidate(attempt, revision), j, AfterLostRace(c, max, attempt))
    ensures Commit(j, b) == Committed ==>
              CallStep(c, max, j, Candidate(attempt, revision), j + [b], Reconcile(attempt, false))
    ensures Commit(j, b) == Idempotent ==>
              CallStep(c, max, j, Candidate(attempt, revision), j, Reconcile(attempt, false))
  {
    assert AfterCommit(c, max, j, attempt, b, j, AfterLostRace(c, max, attempt));
    if Commit(j, b) == Committed {
      assert AfterCommit(c, max, j, attempt, b, j + [b], Reconcile(attempt, false));
    }
    if Commit(j, b) == Idempotent {
      assert AfterCommit(c, max, j, attempt, b, j, Reconcile(attempt, false));
    }
  }

  lemma OfferGoesNowhereElse(c: Call, max: nat, j: Journal, attempt: nat, revision: nat, j': Journal, p': Pc)
    requires UniqueIds(j) && CallStep(c, max, j, Candidate(attempt, revision), j', p')
    ensures p' == Failed || p'.Returned? || p' == Reconcile(attempt, false) || p' == AfterLostRace(c, max, attempt)
    ensures p'.Returned? ==> revision == |j| < |j'|
    ensures p' == Reconcile(attempt, false) ==> revision == |j| || exists i :: 0 <= i < |j| && j[i].id == c.id
  {
    if p' == Reconcile(attempt, false) {
      var b :| Offers(c, j, revision, b) && AfterCommit(c, max, j, attempt, b, j', p');
      assert b.id == c.id;
      CommitIsExact(j, b);
    }
  }

  /** After a second look that finds no receipt, only a call that lost the race starts over. */
  lemma ReconcileRetries(c: Call, max: nat, j: Journal, attempt: nat, retry: bool, n: nat)
    ensures CallStep(c, max, j, Reconcile(attempt, retry), j, Begin(n)) <==>
              retry && ReadReceipt(j, c) == NotFound && n == attempt + 1 <= max
  {
  }

  /** Every call ends: each step lowers the attempts left or the phase within the attempt. */
  function StepsLeft(max: nat, p: Pc): nat {
    match p
    case Begin(a) => if a <= max then 3 * (max - a) + 3 else 3
    case Candidate(a, _) => if a <= max then 3 * (max - a) + 2 else 2
    case Reconcile(a, _) => if a <= max then 3 * (max - a) + 1 else 1
    case _ => 0
  }

  lemma CallEnds(c: Call, max: nat, j: Journal, p: Pc, j': Journal, p': Pc)
    requires CallStep(c, max, j, p, j', p')
    ensures StepsLeft(max, p') < StepsLeft(max, p)
  {
  }

  // ---------------------------------------------------------------- all interleavings

  datatype Running = Running(call: Call, pc: Pc)
  datatype System = System(journal: Journal, calls: map<nat, Running>)

  ghost predicate Initial(s: System) {
    s.journal == [] && s.calls == map[]
  }

  datatype Move = Invoke(k: nat, call: Call) | Advance(k: nat, pc: Pc) | Crash(k: nat)

  ghost predicate Next(max: nat, s: System, m: Move, s': System) {
    match m
    case Invoke(k, c) =>
      k !in s.calls && s' == s.(calls := s.calls[k := Running(c, Begin(0))])
    case Advance(k, pc) =>
      && k in s.calls
      && s'.calls == s.calls[k := s.calls[k].(pc := pc)]
      && CallStep(s.calls[k].call, max, s.journal, s.calls[k].pc, s'.journal, pc)
    case Crash(k) =>
      s' == s.(calls := s.calls - {k})
  }

  ghost predicate IsRun(max: nat, run: seq<System>, moves: seq<Move>) {
    && |run| == |moves| + 1
    && Initial(run[0])
    && (forall i :: 0 <= i < |moves| ==> Next(max, run[i], moves[i], run[i + 1]))
  }

  ghost predicate Safe(s: System) {
    && Sound(s.journal)
    && (forall k :: k in s.calls ==> PcSound(s.journal, s.calls[k].call, s.calls[k].pc))
  }

  predicate Extends(a: Journal, b: Journal) {
    |a| <= |b| && b[..|a|] == a
  }

  /** A call that does not move stays sound while the journal stays or grows by one batch. */
  lemma OthersStaySound(j: Journal, j': Journal, c: Call, p: Pc)
    requires PcSound(j, c, p) && (j' == j || (|j'| == |j| + 1 && j == j'[..|j|]))
    ensures PcSound(j', c, p)
  {
    if j' != j {
      assert j' == j + [j'[|j|]];
      ReceiptedGrows(j, j'[|j|], c, p);
    }
  }

  lemma AdvanceKeepsSafe(max: nat, s: System, k: nat, pc: Pc, s': System)
    requires Safe(s) && Next(max, s, Advance(k, pc), s')
    ensures Safe(s') && Extends(s.journal, s'.journal)
  {
    CallStepSound(s.calls[k].call, max, s.journal, s.calls[k].pc, s'.journal, pc);
    forall other | other in s'.calls
      ensures PcSound(s'.journal, s'.calls[other].call, s'.calls[other].pc)
    {
      if other != k {
        OthersStaySound(s.journal, s'.journal, s.calls[other].call, s.calls[other].pc);
      }
    }
  }

  lemma NextKeepsSafe(max: nat, s: System, m: Move, s': System)
    requires Safe(s) && Next(max, s, m, s')
    ensures Safe(s') && Extends(s.journal, s'.journal)
  {
    match m
    case Advance(k, pc) => AdvanceKeepsSafe(max, s, k, pc, s');
    case _ => assert s'.journal == s.journal;
  }

  lemma {:induction false} RunIsSafe(max: nat, run: seq<System>, moves: seq<Move>, n: nat)
    requires IsRun(max, run, moves) && n < |run|
    ensures Safe(run[n])
  {
    if n > 0 {
      RunIsSafe(max, run, moves, n - 1);
      NextKeepsSafe(max, run[n - 1], moves[n - 1], run[n]);
    } else {
      assert Events(run[0].journal) == [];
    }
  }

  lemma ExtendsIsTransitive(a: Journal, b: Journal, c: Journal)
    requires Extends(a, b) && Extends(b, c)
    ensures Extends(a, c)
  {
    assert c[..|b|][..|a|] == c[..|a|];
  }

  lemma StepExtends(max: nat, run: seq<System>, moves: seq<Move>, n: nat)
    requires IsRun(max, run, moves) && n < |moves|
    ensures Extends(run[n].journal, run[n + 1].journal)
  {
    RunIsSafe(max, run, moves, n);
    NextKeepsSafe(max, run[n], moves[n], run[n + 1]);
  }

  /** Batches are never removed or changed, whatever the interleaving. */
  lemma {:induction false} JournalOnlyGrows(max: nat, run: seq<System>, moves: seq<Move>, m: nat, n: nat)
    requires IsRun(max, run, moves) && m <= n < |run|
    ensures Extends(run[m].journal, run[n].journal)
    decreases n
  {
    if m < n {
      JournalOnlyGrows(max, run, moves, m, n - 1);
      StepExtends(max, run, moves, n - 1);
      ExtendsIsTransitive(run[m].journal, run[n - 1].journal, run[n].journal);
    }
  }

  /**
   In every interleaving: an id has at most one batch; a call that returned did so with the result in
   that batch's receipt, and only if the batch carries the call's own content and principal; and two
   calls that returned under one id, at any two moments, had the same content and got the same result.
   */
  lemma ExactlyOnce(max: nat, run: seq<System>, moves: seq<Move>, m: nat, n: nat, k: nat, l: nat)
    requires IsRun(max, run, moves) && m <= n < |run|
    requires k in run[m].calls && run[m].calls[k].pc.Returned?
    requires l in run[n].calls && run[n].calls[l].pc.Returned?
    ensures UniqueIds(run[n].journal)
    ensures Receipted(run[n].journal, run[m].calls[k].call, run[m].calls[k].pc.result)
    ensures Receipted(run[n].journal, run[n].calls[l].call, run[n].calls[l].pc.result)
    ensures run[m].calls[k].call.id == run[n].calls[l].call.id ==>
              run[m].calls[k].call == run[n].calls[l].call && run[m].calls[k].pc == run[n].calls[l].pc
  {
    RunIsSafe(max, run, moves, m);
    RunIsSafe(max, run, moves, n);
    JournalOnlyGrows(max, run, moves, m, n);
    var a, b := run[m].calls[k], run[n].calls[l];
    var j := run[n].journal;
    var x :| 0 <= x < |run[m].journal| && Answers(run[m].journal[x], a.call) && run[m].journal[x].result == a.pc.result;
    var y :| 0 <= y < |j| && Answers(j[y], b.call) && j[y].result == b.pc.result;
    assert j[x] == j[..|run[m].journal|][x] == run[m].journal[x];
  }

  /**
   A result once recorded for a call is never lost to it: at every later moment, a retry of the same call, or a call
   that lost its response, returns that result or fails without an answer.
   */
  lemma RetryGetsTheReceipt(max: nat, run: seq<System>, moves: seq<Move>, m: nat, n: nat, c: Call, r: Result, p: Pc)
    requires IsRun(max, run, moves) && m <= n < |run| && Receipted(run[m].journal, c, r) && (p.Begin? || p.Reconcile?)
    ensures CallStep(c, max, run[n].journal, p, run[n].journal, Returned(r))
    ensures forall j', p' :: CallStep(c, max, run[n].journal, p, j', p') ==> p' == Returned(r) || p' == Failed
  {
    RunIsSafe(max, run, moves, n);
    JournalOnlyGrows(max, run, moves, m, n);
    var i :| 0 <= i < |run[m].journal| && Answers(run[m].journal[i], c) && run[m].journal[i].result == r;
    assert run[n].journal[i] == run[n].journal[..|run[m].journal|][i];
    assert Receipted(run[n].journal, c, r);
    ReturnsExactlyTheReceipt(c, max, run[n].journal, p, r);
  }

  /** Once an id is bound to other content, no call under that id ever returns. */
  lemma ReuseNeverSucceeds(max: nat, run: seq<System>, moves: seq<Move>, n: nat, k: nat, i: nat)
    requires IsRun(max, run, moves) && n < |run| && k in run[n].calls && i < |run[n].journal|
    requires run[n].journal[i].id == run[n].calls[k].call.id
    requires !Answers(run[n].journal[i], run[n].calls[k].call)
    ensures !run[n].calls[k].pc.Returned?
  {
    RunIsSafe(max, run, moves, n);
  }
}
