/**
 What every run of progress and acceptance commands keeps: receipts the controller itself will always read back,
 and acceptance that follows the dependency graph.
 */
module TaskLedgerLaws {
  import opened Basics
  import opened TaskLedger

  // ---------------------------------------------------------------- receipts stay readable

  /** Only the last cycle may be in progress. */
  predicate OnlyLastInProgress(t: Task) {
    forall i :: 0 <= i < |t.cycles| - 1 ==> t.cycles[i].status != InProgress
  }

  predicate ReceiptsCarryIds(t: Task) {
    forall i :: 0 <= i < |t.cycles| && t.cycles[i].receipts != [] ==> t.cycles[i].id.Some?
  }

  predicate TaskOk(t: Task) {
    && CanonicalTask(t) && t.updatedAt.Some?
    && ReceiptsOk(t) && DistinctDigests(AllReceipts(t.cycles))
    && OnlyLastInProgress(t)
    && ReceiptsCarryIds(t)
  }

  function PriorReceipts(t: Task, p: ProgressPacket): seq<Receipt> {
    if 1 <= p.cycle <= |t.cycles| then t.cycles[p.cycle - 1].receipts else []
  }

  /** A recorded packet changes the last cycle or appends a new one, and touches nothing before it. */
  lemma ProgressExtends(t: Task, p: ProgressPacket, next: Task)
    requires BuildProgress(t, p) == Ok(next) && OnlyLastInProgress(t) && 1 <= p.cycle
    ensures p.cycle == |t.cycles| || p.cycle == |t.cycles| + 1
    ensures next.cycles == t.cycles[..p.cycle - 1] + [NextCycle(p, t.owner, PriorReceipts(t, p))]
    ensures p.cycle == |t.cycles| + 1 ==> forall i :: 0 <= i < |t.cycles| ==> t.cycles[i].status != InProgress
  {
    if p.cycle <= |t.cycles| {
      assert t.cycles[p.cycle - 1].status == InProgress;
    } else {
      assert forall i :: 0 <= i < |t.cycles| ==> t.cycles[i] in t.cycles;
    }
  }

  lemma ReceiptsExtend(t: Task, p: ProgressPacket, next: Task)
    requires BuildProgress(t, p) == Ok(next) && OnlyLastInProgress(t) && 1 <= p.cycle
    ensures AllReceipts(next.cycles) == AllReceipts(t.cycles) + [NewReceipt(p)]
  {
    ProgressExtends(t, p, next);
    var k := p.cycle - 1;
    assert next.cycles[..k] == t.cycles[..k];
    assert t.cycles[..|t.cycles|] == t.cycles;
  }

  lemma {:induction false} UnrecordedDigest(cycles: seq<Cycle>, digest: string)
    requires forall i, j :: 0 <= i < |cycles| && 0 <= j < |cycles[i].receipts| ==>
              cycles[i].receipts[j].digest != digest
    ensures forall k :: 0 <= k < |AllReceipts(cycles)| ==> AllReceipts(cycles)[k].digest != digest
  {
    if cycles != [] {
      UnrecordedDigest(cycles[..|cycles| - 1], digest);
    }
  }

  lemma DigestsStayDistinct(t: Task, p: ProgressPacket, next: Task)
    requires BuildProgress(t, p) == Ok(next) && OnlyLastInProgress(t) && 1 <= p.cycle
    requires DistinctDigests(AllReceipts(t.cycles)) && !Recorded(t, p.digest)
    ensures DistinctDigests(AllReceipts(next.cycles))
  {
    ReceiptsExtend(t, p, next);
    UnrecordedDigest(t.cycles, p.digest);
  }

  /** Whether the new last cycle reads back: its earlier receipts must carry the packet's cycle id. */
  lemma LastCycleReadsBack(t: Task, p: ProgressPacket)
    requires CanonicalTask(t) && ReceiptsOk(t) && ProgressPacketOk(t, p) && !Recorded(t, p.digest)
    requires Updated(t) < p.recordedAt
    ensures CycleReceiptsOk(NextCycle(p, t.owner, PriorReceipts(t, p)), t.owner)
            <==> forall i :: 0 <= i < |PriorReceipts(t, p)| ==> PriorReceipts(t, p)[i].cycleId == p.cycleId
  {
    var prior, next := PriorReceipts(t, p), NextCycle(p, t.owner, PriorReceipts(t, p));
    assert forall i :: 0 <= i < |prior| ==> next.receipts[i] == prior[i];
    if prior != [] {
      var c := t.cycles[p.cycle - 1];
      assert CycleOk(c, p.cycle, t.createdAt, Updated(t)) && CycleReceiptsOk(c, t.owner);
      assert forall i :: 0 <= i < |prior| ==> prior[i] in c.receipts;
      assert forall i :: 0 <= i < |prior| ==> prior[i].recordedAt < p.recordedAt && prior[i].digest != p.digest;
    }
  }

  /**
   The controller reads a progressed task back exactly when the continued cycle's receipts carry the packet's cycle
   id.
   */
  lemma ProgressReadsBack(t: Task, p: ProgressPacket, next: Task)
    requires ProgressedTask(t, p) == Ok(next) && !Recorded(t, p.digest)
    ensures ReceiptsOk(next) <==>
            forall i :: 0 <= i < |PriorReceipts(t, p)| ==> PriorReceipts(t, p)[i].cycleId == p.cycleId
  {
    LastCycleReadsBack(t, p);
    var k := p.cycle - 1;
    assert next.cycles[k] == NextCycle(p, t.owner, PriorReceipts(t, p));
    assert forall i :: 0 <= i < |next.cycles| && i != k ==> i < |t.cycles| && next.cycles[i] == t.cycles[i];
    assert next.owner == t.owner;
  }

  lemma ProgressKeepsCycles(t: Task, p: ProgressPacket, next: Task)
    requires OnlyLastInProgress(t) && ReceiptsCarryIds(t) && BuildProgress(t, p) == Ok(next) && 1 <= p.cycle
    ensures OnlyLastInProgress(next) && ReceiptsCarryIds(next)
  {
    ProgressExtends(t, p, next);
    assert forall i :: 0 <= i < p.cycle - 1 ==> next.cycles[i] == t.cycles[i];
  }

  /** A cycle with receipts and an id is continued only under that id. */
  lemma PriorReceiptsCarryId(t: Task, p: ProgressPacket, next: Task)
    requires ReceiptsOk(t) && ReceiptsCarryIds(t) && BuildProgress(t, p) == Ok(next)
    ensures forall i :: 0 <= i < |PriorReceipts(t, p)| ==> PriorReceipts(t, p)[i].cycleId == p.cycleId
  {
    if 1 <= p.cycle <= |t.cycles| {
      assert CycleReceiptsOk(t.cycles[p.cycle - 1], t.owner);
    }
  }

  lemma ProgressKeepsOk(t: Task, p: ProgressPacket, next: Task)
    requires TaskOk(t) && ProgressedTask(t, p) == Ok(next)
    ensures TaskOk(next)
  {
    if !Recorded(t, p.digest) {
      assert BuildProgress(t, p) == Ok(next);
      ProgressKeepsCycles(t, p, next);
      DigestsStayDistinct(t, p, next);
      PriorReceiptsCarryId(t, p, next);
      ProgressReadsBack(t, p, next);
    }
  }

  /** The packet goes on with the last cycle, which it must identify, or starts the next one. */
  predicate Continues(t: Task, p: ProgressPacket) {
    && t.cycles != [] && p.cycle == |t.cycles|
    && var c := t.cycles[|t.cycles| - 1];
       && c.status == InProgress && c.startedAt == p.startedAt
       && (c.id.None? || c.id.value == p.cycleId) && (c.kind.None? || c.kind.value == p.kind)
       && (c.owner.None? || c.owner.value == t.owner)
  }

  predicate StartsNext(t: Task, p: ProgressPacket) {
    p.cycle == |t.cycles| + 1 && (t.cycles != [] ==> t.cycles[|t.cycles| - 1].status != InProgress)
  }

  /** The packet is well formed, its author is the owner, and it is newer than the task it was written for. */
  predicate PacketIsTimely(t: Task, p: ProgressPacket) {
    && p.recordedBy == t.owner && p.expected == t
    && t.createdAt <= p.startedAt <= p.recordedAt && Updated(t) < p.recordedAt
    && (if p.status == Completed then p.completedAt.Some? && p.startedAt <= p.completedAt.value <= p.recordedAt
        else p.status == InProgress && p.completedAt.None?)
  }

  lemma BuildsExactly(t: Task, p: ProgressPacket)
    requires OnlyLastInProgress(t) && 1 <= p.cycle
    ensures BuildProgress(t, p).Ok? <==> Continues(t, p) || StartsNext(t, p)
  {
    if p.cycle == |t.cycles| + 1 {
      assert t.cycles != [] ==> t.cycles[|t.cycles| - 1] in t.cycles;
      assert forall i :: 0 <= i < |t.cycles| ==> t.cycles[i] in t.cycles;
    }
  }

  lemma BuiltIsCanonical(t: Task, p: ProgressPacket, next: Task)
    requires TaskOk(t) && BuildProgress(t, p) == Ok(next) && PacketIsTimely(t, p) && 1 <= p.cycle
    ensures CanonicalTask(next) && Updated(t) < Updated(next)
  {
    ProgressExtends(t, p, next);
    forall i | 0 <= i < |next.cycles|
      ensures CycleOk(next.cycles[i], i + 1, next.createdAt, Updated(next))
    {
      if i < |t.cycles| {
        assert CycleOk(t.cycles[i], i + 1, t.createdAt, Updated(t));
      }
      if i == p.cycle - 1 {
        assert next.cycles[i] == NextCycle(p, t.owner, PriorReceipts(t, p));
      } else {
        assert next.cycles[i] == t.cycles[i];
      }
    }
  }

  /** On a good task a new packet is recorded exactly when it is timely and goes on with the task's cycles. */
  lemma RecordedExactlyWhen(t: Task, p: ProgressPacket)
    requires TaskOk(t) && !Recorded(t, p.digest)
    ensures ProgressedTask(t, p).Ok? <==>
              && (t.state == TaskInProgress || t.state == Working) && t.blockedBy == []
              && PacketIsTimely(t, p) && (Continues(t, p) || StartsNext(t, p))
  {
    if 1 <= p.cycle {
      BuildsExactly(t, p);
      if BuildProgress(t, p).Ok? && PacketIsTimely(t, p) {
        BuiltIsCanonical(t, p, BuildProgress(t, p).value);
      }
      if ProgressedTask(t, p).Ok? {
        var next := ProgressedTask(t, p).value;
        ProgressExtends(t, p, next);
        assert CycleOk(next.cycles[p.cycle - 1], p.cycle, next.createdAt, Updated(next));
      }
    }
  }

  /** So a cycle reported in progress can be reported again: the next packet need only repeat its id, kind and start. */
  lemma ProgressGoesOn(t: Task, p: ProgressPacket, next: Task, q: ProgressPacket)
    requires TaskOk(t) && ProgressedTask(t, p) == Ok(next) && !Recorded(t, p.digest) && p.status == InProgress
    requires q.cycle == p.cycle && q.cycleId == p.cycleId && q.kind == p.kind && q.startedAt == p.startedAt
    requires PacketIsTimely(next, q) && !Recorded(next, q.digest)
    ensures ProgressedTask(next, q).Ok?
  {
    ProgressKeepsOk(t, p, next);
    ProgressExtends(t, p, next);
    RecordedExactlyWhen(next, q);
  }

  /** What the controller reads in a good task. */
  lemma GoodTaskMeans(t: Task, i: nat)
    requires TaskOk(t) && i < |t.cycles|
    ensures t.cycles[i].number == i + 1 && t.cycles[i].status != UnsupportedCycle
    ensures t.createdAt <= t.cycles[i].startedAt <= Updated(t)
    ensures t.cycles[i].completedAt.Some? <==> t.cycles[i].status != InProgress
    ensures t.cycles[i].completedAt.Some? ==> t.cycles[i].startedAt <= t.cycles[i].completedAt.value <= Updated(t)
    ensures forall j :: 0 <= j < |t.cycles[i].receipts| ==>
              var r := t.cycles[i].receipts[j];
              && r.recordedBy == t.owner && r.cycle == i + 1 && t.cycles[i].id == Some(r.cycleId)
              && (r.status == InProgress || r.status == Completed)
              && t.cycles[i].startedAt <= r.recordedAt <= Updated(t)
  {
    var c := t.cycles[i];
    assert CycleOk(c, i + 1, t.createdAt, Updated(t)) && CycleReceiptsOk(c, t.owner);
    assert forall j :: 0 <= j < |c.receipts| ==> ReceiptMatches(c.receipts[j], c, t.owner);
  }

  /** The packet is the owner's and its own times agree. */
  predicate WellFormed(t: Task, p: ProgressPacket) {
    && p.recordedBy == t.owner && t.createdAt <= p.recordedAt && p.startedAt <= p.recordedAt && 1 <= p.cycle
    && (p.status == InProgress || p.status == Completed) && (p.status == InProgress <==> p.completedAt.None?)
    && (p.completedAt.Some? ==> p.startedAt <= p.completedAt.value <= p.recordedAt)
  }

  predicate OpenForProgress(t: Task) {
    (t.state == TaskInProgress || t.state == Working) && t.blockedBy == []
  }

  /** A recorded packet is answered again; a malformed packet and one for a closed or changed task are refused. */
  lemma ProgressRefusals(t: Task, p: ProgressPacket)
    requires TaskOk(t)
    ensures ProgressedTask(t, p) == Err(PacketInvalid) <==> !WellFormed(t, p)
    ensures WellFormed(t, p) && Recorded(t, p.digest) ==> ProgressedTask(t, p) == Ok(t)
    ensures WellFormed(t, p) && !Recorded(t, p.digest) && !OpenForProgress(t) ==>
              ProgressedTask(t, p) == Err(TransitionInvalid)
    ensures WellFormed(t, p) && !Recorded(t, p.digest) && OpenForProgress(t) && p.expected != t ==>
              ProgressedTask(t, p) == Err(StateChanged)
  {
  }

  /** Why a well-formed new packet written for an open task as it stands is not recorded. */
  lemma CycleRefusals(t: Task, p: ProgressPacket)
    requires TaskOk(t) && !Recorded(t, p.digest) && WellFormed(t, p) && OpenForProgress(t) && p.expected == t
    ensures ProgressedTask(t, p) == Err(CycleSequenceInvalid) <==> p.cycle > |t.cycles| + 1
    ensures ProgressedTask(t, p) == Err(TransitionInvalid) <==>
              || (p.cycle <= |t.cycles| && t.cycles[p.cycle - 1].status != InProgress)
              || (p.cycle == |t.cycles| + 1 && !StartsNext(t, p))
    ensures ProgressedTask(t, p) == Err(CycleIdentityChanged) <==>
              p.cycle == |t.cycles| && t.cycles[p.cycle - 1].status == InProgress && !Continues(t, p)
    ensures ProgressedTask(t, p) == Err(StateChanged) <==>
              (Continues(t, p) || StartsNext(t, p)) && p.recordedAt <= Updated(t)
    ensures ProgressedTask(t, p) == Err(StateUnsupported) <==>
              StartsNext(t, p) && Updated(t) < p.recordedAt && p.startedAt < t.createdAt
  {
    BuildsExactly(t, p);
    RecordedExactlyWhen(t, p);
    if p.cycle <= |t.cycles| {
      assert CycleOk(t.cycles[p.cycle - 1], p.cycle, t.createdAt, Updated(t));
    }
  }

  /** A decided acceptance is answered again for the packet that decided it; why any other is refused. */
  lemma AcceptanceRefusals(tasks: Ledger, t: Task, a: AcceptancePacket)
    requires TaskOk(t)
    ensures t.state == TaskAccepted ==>
              AcceptedTask(tasks, t, a) == if t.acceptance == Some(a.digest) then Ok(t) else Err(AlreadyAccepted)
    ensures AcceptedTask(tasks, t, a) == Err(PacketInvalid) <==>
              t.state != TaskAccepted && (t.cycles == [] || a.acceptedAt < t.createdAt)
    ensures AcceptedTask(tasks, t, a) == Err(TransitionInvalid) <==>
              && t.state != TaskAccepted && t.cycles != [] && t.createdAt <= a.acceptedAt
              && !(t.state == TaskInProgress && t.blockedBy == [])
    ensures AcceptedTask(tasks, t, a) == Err(DependencyOpen) ==>
              a.expected == t && exists d :: d in t.dependencies && !AcceptedIn(tasks, d)
    ensures AcceptedTask(tasks, t, a) == Err(StateChanged) ==> a.expected != t || a.acceptedAt <= Updated(t)
    ensures AcceptedTask(tasks, t, a) != Err(StateUnsupported)
  {
    var next := BuildAccepted(t, a);
    if Updated(t) < a.acceptedAt {
      forall i | 0 <= i < |t.cycles|
        ensures CycleOk(next.cycles[i], i + 1, next.createdAt, Updated(next))
      {
        assert CycleOk(t.cycles[i], i + 1, t.createdAt, Updated(t));
      }
    }
  }

  lemma {:induction false} AcceptKeepsReceipts(cycles: seq<Cycle>, at: Time)
    ensures AllReceipts(AcceptCycles(cycles, at)) == AllReceipts(cycles)
  {
    if cycles != [] {
      var n := |cycles| - 1;
      AcceptKeepsReceipts(cycles[..n], at);
      assert AcceptCycles(cycles, at)[..n] == AcceptCycles(cycles[..n], at);
    }
  }

  lemma AcceptKeepsOk(tasks: Ledger, t: Task, a: AcceptancePacket, next: Task)
    requires TaskOk(t) && AcceptedTask(tasks, t, a) == Ok(next)
    ensures TaskOk(next)
  {
    if t.state != TaskAccepted {
      AcceptKeepsReceipts(t.cycles, a.acceptedAt);
      forall i | 0 <= i < |t.cycles|
        ensures CycleReceiptsOk(next.cycles[i], next.owner)
      {
        assert CycleReceiptsOk(t.cycles[i], t.owner);
      }
    }
  }

  lemma DependentKeepsOk(t: Task, id: string, at: Time)
    requires TaskOk(t)
    ensures TaskOk(Dependent(t, id, at))
  {
    var next := Dependent(t, id, at);
    forall i | 0 <= i < |t.cycles|
      ensures CycleOk(next.cycles[i], i + 1, next.createdAt, Updated(next))
    {
      assert CycleOk(t.cycles[i], i + 1, t.createdAt, Updated(t));
    }
  }

  predicate LedgerOk(tasks: Ledger) {
    UniqueIds(tasks) && forall i :: 0 <= i < |tasks| ==> TaskOk(tasks[i])
  }

  /** Ids and dependencies, which no command changes. */
  predicate SameSkeleton(a: Ledger, b: Ledger) {
    |a| == |b| && forall i :: 0 <= i < |a| ==> a[i].id == b[i].id && a[i].dependencies == b[i].dependencies
  }

  lemma ChangeKeepsIdentity(before: Ledger, i: nat, after: Task, c: Change)
    requires i < |before| && Changes(before, i, after, c)
    ensures after.id == before[i].id && after.dependencies == before[i].dependencies
  {
  }

  lemma StepKeepsLength(tasks: Ledger, step: Step)
    ensures |After(tasks, step)| == |tasks|
  {
    IndexFindsTask(tasks, if step.Progress? then step.p.task else step.a.task);
  }

  lemma StepKeepsSkeleton(tasks: Ledger, step: Step)
    ensures SameSkeleton(tasks, After(tasks, step))
  {
    StepKeepsLength(tasks, step);
    forall i | 0 <= i < |tasks|
      ensures tasks[i].id == After(tasks, step)[i].id && tasks[i].dependencies == After(tasks, step)[i].dependencies
    {
      var c := StepChanges(tasks, step, i);
      ChangeKeepsIdentity(tasks, i, After(tasks, step)[i], c);
    }
  }

  lemma StepKeepsTaskOk(tasks: Ledger, step: Step, i: nat)
    requires i < |tasks| && TaskOk(tasks[i])
    ensures |After(tasks, step)| == |tasks| && TaskOk(After(tasks, step)[i])
  {
    var c := StepChanges(tasks, step, i);
    var next := After(tasks, step)[i];
    match c
    case Unchanged =>
    case Progressed(p) => ProgressKeepsOk(tasks[i], p, next);
    case Accepted(a) => AcceptKeepsOk(tasks, tasks[i], a, next);
    case Unblocked(id, at) => DependentKeepsOk(tasks[i], id, at);
  }

  lemma StepKeepsLedgerOk(tasks: Ledger, step: Step)
    requires LedgerOk(tasks)
    ensures LedgerOk(After(tasks, step))
  {
    StepKeepsSkeleton(tasks, step);
    forall i | 0 <= i < |tasks|
      ensures TaskOk(After(tasks, step)[i])
    {
      StepKeepsTaskOk(tasks, step, i);
    }
  }

  /** From a good ledger every run leaves every task readable: its receipts are never rejected. */
  lemma {:induction false} RunStaysReadable(tasks: Ledger, steps: seq<Step>)
    requires LedgerOk(tasks)
    ensures LedgerOk(Run(tasks, steps))
  {
    if steps != [] {
      var before := steps[..|steps| - 1];
      RunStaysReadable(tasks, before);
      StepKeepsLedgerOk(Run(tasks, before), steps[|steps| - 1]);
    }
  }

  /** Without a cycle id the controller accepts a packet whose task it will then refuse to read. */
  lemma CycleWithoutIdCanBreak()
    ensures exists t, p, next ::
              CanonicalTask(t) && ReceiptsOk(t) && ProgressedTask(t, p) == Ok(next) && !ReceiptsOk(next)
  {
    var r := Receipt("d1", 1, "owner", 1, "cycle-a", InProgress);
    var c := Cycle(1, None, None, None, InProgress, 0, None, [r]);
    var t := Task("T", "owner", TaskInProgress, 0, Some(1), [], [], [c], None);
    var p := ProgressPacket("T", "d2", t, 2, "owner", 1, "cycle-b", "kind", InProgress, 0, None);
    assert CanonicalTask(t) && CycleReceiptsOk(c, "owner") && ReceiptsOk(t);
    assert t.cycles[0].receipts[0].digest != "d2" && !Recorded(t, "d2");
    var next := BuildProgress(t, p).value;
    assert next.cycles[0] == NextCycle(p, "owner", [r]);
    assert r in next.cycles[0].receipts;
    assert next.cycles[0].receipts == [r, NewReceipt(p)];
    assert CanonicalTask(next) && ProgressedTask(t, p) == Ok(next);
    assert !ReceiptMatches(next.cycles[0].receipts[0], next.cycles[0], "owner");
    assert !ReceiptsOk(next);
  }

  /** A task that carries no revision time, unblocked at a time before it was created. */
  predicate Backdated(t: Task, id: string, at: Time) {
    t.updatedAt.None? && Unblocks(t, id) && at < t.createdAt
  }

  lemma DependentStaysCanonical(t: Task, id: string, at: Time)
    requires CanonicalTask(t)
    ensures CanonicalTask(Dependent(t, id, at)) <==> !Backdated(t, id, at)
  {
    var next := Dependent(t, id, at);
    if !Backdated(t, id, at) {
      forall i | 0 <= i < |t.cycles|
        ensures CycleOk(next.cycles[i], i + 1, next.createdAt, Updated(next))
      {
        assert CycleOk(t.cycles[i], i + 1, t.createdAt, Updated(t));
      }
    }
  }

  /** The command accepts its task, which was not accepted before. */
  predicate NewlyAccepts(tasks: Ledger, step: Step) {
    step.Accept? && !AcceptedIn(tasks, step.a.task) && AcceptedIn(After(tasks, step), step.a.task)
  }

  /** An acceptance command replaces its task and updates the dependents, or changes nothing. */
  lemma OnlyNewAcceptanceChanges(tasks: Ledger, a: AcceptancePacket) returns (k: nat, next: Task)
    ensures NewlyAccepts(tasks, Accept(a)) ==>
              && k < |tasks| && tasks[k].blockedBy == [] && CanonicalTask(next)
              && After(tasks, Accept(a)) == Dependents(tasks, a.task, a.acceptedAt)[k := next]
    ensures !NewlyAccepts(tasks, Accept(a)) ==> After(tasks, Accept(a)) == tasks
  {
    k, next := 0, a.expected;
    IndexFindsTask(tasks, a.task);
    if Apply(tasks, Accept(a)).Ok? {
      k := IndexOfTask(tasks, a.task).value;
      next := AcceptedTask(tasks, tasks[k], a).value;
      if tasks[k].state != TaskAccepted {
        var after := Dependents(tasks, a.task, a.acceptedAt)[k := next];
        assert After(tasks, Accept(a)) == after;
        assert next.state == TaskAccepted && next.id == a.task;
        assert AcceptedIn(after, a.task) by { assert after[k] == next; }
      } else {
        assert AcceptedIn(tasks, a.task);
      }
    }
  }

  lemma ProgressStaysCanonical(tasks: Ledger, p: ProgressPacket, i: nat)
    requires i < |tasks| && CanonicalTask(tasks[i])
    ensures |After(tasks, Progress(p))| == |tasks| && CanonicalTask(After(tasks, Progress(p))[i])
  {
    IndexFindsTask(tasks, p.task);
    if Apply(tasks, Progress(p)).Ok? {
      assert After(tasks, Progress(p)) == tasks[IndexOfTask(tasks, p.task).value :=
                                                  ProgressedTask(tasks[IndexOfTask(tasks, p.task).value], p).value];
    }
  }

  /**
   Every command leaves every canonical task canonical, except an acceptance that unblocks a task without a revision
   time at a time before that task was created.
   */
  lemma UnrevisedDependent(tasks: Ledger, step: Step, i: nat)
    requires i < |tasks| && CanonicalTask(tasks[i])
    ensures |After(tasks, step)| == |tasks|
    ensures CanonicalTask(After(tasks, step)[i]) <==>
              !(NewlyAccepts(tasks, step) && Backdated(tasks[i], step.a.task, step.a.acceptedAt))
  {
    match step
    case Progress(p) => ProgressStaysCanonical(tasks, p, i);
    case Accept(a) =>
      var k, next := OnlyNewAcceptanceChanges(tasks, a);
      DependentStaysCanonical(tasks[i], a.task, a.acceptedAt);
  }

  /** Such a ledger and acceptance exist. */
  lemma UnrevisedDependentCanBreak()
    ensures exists tasks, a ::
              && |tasks| == 2 && UniqueIds(tasks) && CanonicalTask(tasks[0]) && CanonicalTask(tasks[1])
              && NewlyAccepts(tasks, Accept(a)) && !CanonicalTask(After(tasks, Accept(a))[1])
  {
    var done := Cycle(1, Some("c"), None, None, Completed, 0, Some(0), []);
    var first := Task("A", "owner", TaskInProgress, 0, Some(0), [], [], [done], None);
    var second := Task("B", "owner", OtherTaskState, 5, None, ["A"], ["A"], [], None);
    var tasks, packet := [first, second], AcceptancePacket("A", "d", first, 1);
    assert tasks[0].id != tasks[1].id && CanonicalTask(first) && CanonicalTask(second);
    AcceptedExactlyWhenDependenciesAre(tasks, 0, packet);
    assert ReceiptsOk(first) && PacketSuits(first, packet);
    assert !AcceptedIn(tasks, "A") && NewlyAccepts(tasks, Accept(packet));
    assert "A" in second.blockedBy && "A" in second.dependencies && Backdated(second, "A", 1);
    UnrevisedDependent(tasks, Accept(packet), 1);
  }

  // ---------------------------------------------------------------- acceptance and dependencies

  /** Every dependency of an accepted task is accepted. */
  predicate ClosedUnderDependencies(tasks: Ledger) {
    forall i, d :: 0 <= i < |tasks| && tasks[i].state == TaskAccepted && d in tasks[i].dependencies ==>
        AcceptedIn(tasks, d)
  }

  /** The command accepts the task at `i`. */
  ghost predicate Accepts(tasks: Ledger, step: Step, i: nat) {
    && i < |tasks| && |After(tasks, step)| == |tasks|
    && tasks[i].state != TaskAccepted && After(tasks, step)[i].state == TaskAccepted
  }

  /** Acceptance is never undone, and keeps the packet that decided it. */
  lemma AcceptanceIsFinal(tasks: Ledger, step: Step, i: nat)
    requires i < |tasks| && tasks[i].state == TaskAccepted
    ensures |After(tasks, step)| == |tasks|
    ensures After(tasks, step)[i].state == TaskAccepted && After(tasks, step)[i].acceptance == tasks[i].acceptance
    ensures After(tasks, step)[i].cycles == tasks[i].cycles
  {
    var c := StepChanges(tasks, step, i);
  }

  /** A task is accepted only when all its dependencies already are. */
  lemma AcceptsOnlyAfterDependencies(tasks: Ledger, step: Step, i: nat)
    requires Accepts(tasks, step, i)
    ensures step.Accept? && tasks[i].id == step.a.task
    ensures forall d :: d in tasks[i].dependencies ==> AcceptedIn(tasks, d)
  {
    var c := StepChanges(tasks, step, i);
  }

  lemma AcceptedStays(tasks: Ledger, step: Step, id: string)
    requires AcceptedIn(tasks, id)
    ensures AcceptedIn(After(tasks, step), id)
  {
    var i :| 0 <= i < |tasks| && tasks[i].id == id && tasks[i].state == TaskAccepted;
    StepKeepsSkeleton(tasks, step);
    AcceptanceIsFinal(tasks, step, i);
  }

  lemma StepKeepsClosed(tasks: Ledger, step: Step)
    requires ClosedUnderDependencies(tasks)
    ensures ClosedUnderDependencies(After(tasks, step))
  {
    var after := After(tasks, step);
    StepKeepsSkeleton(tasks, step);
    forall i, d | 0 <= i < |after| && after[i].state == TaskAccepted && d in after[i].dependencies
      ensures AcceptedIn(after, d)
    {
      if tasks[i].state != TaskAccepted {
        AcceptsOnlyAfterDependencies(tasks, step, i);
      }
      AcceptedStays(tasks, step, d);
    }
  }

  /** The accepted tasks stay closed under dependencies, whatever is run. */
  lemma {:induction false} RunKeepsClosed(tasks: Ledger, steps: seq<Step>)
    requires ClosedUnderDependencies(tasks)
    ensures ClosedUnderDependencies(Run(tasks, steps))
  {
    if steps != [] {
      var before := steps[..|steps| - 1];
      RunKeepsClosed(tasks, before);
      StepKeepsClosed(Run(tasks, before), steps[|steps| - 1]);
    }
  }

  // ---------------------------------------------------------------- acceptance and cycles

  predicate DependsOn(tasks: Ledger, a: string, b: string) {
    exists i :: 0 <= i < |tasks| && tasks[i].id == a && b in tasks[i].dependencies
  }

  /** `p` leads from its first task to its last along dependencies. */
  predicate DependencyPath(tasks: Ledger, p: seq<string>) {
    p != [] && forall i :: 0 <= i < |p| - 1 ==> DependsOn(tasks, p[i], p[i + 1])
  }

  lemma DependsOnIsFixed(a: Ledger, b: Ledger, x: string, y: string)
    requires SameSkeleton(a, b)
    ensures DependsOn(a, x, y) <==> DependsOn(b, x, y)
  {
    if DependsOn(a, x, y) {
      var i :| 0 <= i < |a| && a[i].id == x && y in a[i].dependencies;
      assert b[i].id == x && y in b[i].dependencies;
    }
    if DependsOn(b, x, y) {
      var i :| 0 <= i < |b| && b[i].id == x && y in b[i].dependencies;
      assert a[i].id == x && y in a[i].dependencies;
    }
  }

  /** Tasks accepted by the run, in order: each depends only on tasks accepted at the start or earlier in the list. */
  ghost predicate AcceptedInOrder(start: Ledger, now: Ledger, log: seq<string>) {
    && (forall x :: AcceptedIn(now, x) ==> AcceptedIn(start, x) || x in log)
    && (forall k :: 0 <= k < |log| ==> !AcceptedIn(start, log[k]))
    && (forall k, d :: 0 <= k < |log| && DependsOn(start, log[k], d) ==> AcceptedIn(start, d) || d in log[..k])
  }

  lemma LogGrows(start: Ledger, now: Ledger, log: seq<string>, after: Ledger, x: string)
    requires AcceptedInOrder(start, now, log) && !AcceptedIn(start, x)
    requires forall d :: DependsOn(start, x, d) ==> AcceptedIn(now, d)
    requires forall y :: AcceptedIn(after, y) ==> AcceptedIn(now, y) || y == x
    ensures AcceptedInOrder(start, after, log + [x])
  {
    var longer := log + [x];
    forall k, d | 0 <= k < |longer| && DependsOn(start, longer[k], d)
      ensures AcceptedIn(start, d) || d in longer[..k]
    {
      if k < |log| {
        assert longer[..k] == log[..k];
      } else {
        assert longer[..k] == log;
      }
    }
  }

  /** One command adds at most one accepted task. */
  lemma StepAcceptsOne(tasks: Ledger, step: Step, x: string)
    requires UniqueIds(tasks) && AcceptedIn(After(tasks, step), x) && !AcceptedIn(tasks, x)
    ensures step.Accept? && x == step.a.task
    ensures forall d :: DependsOn(tasks, x, d) ==> AcceptedIn(tasks, d)
  {
    StepKeepsSkeleton(tasks, step);
    var after := After(tasks, step);
    var i :| 0 <= i < |after| && after[i].id == x && after[i].state == TaskAccepted;
    assert tasks[i].id == x;
    AcceptsOnlyAfterDependencies(tasks, step, i);
    forall d | DependsOn(tasks, x, d)
      ensures AcceptedIn(tasks, d)
    {
      var k :| 0 <= k < |tasks| && tasks[k].id == x && d in tasks[k].dependencies;
      assert k == i;
    }
  }

  lemma StepExtendsLog(start: Ledger, now: Ledger, log: seq<string>, step: Step) returns (longer: seq<string>)
    requires UniqueIds(now) && SameSkeleton(start, now) && AcceptedInOrder(start, now, log)
    requires forall x :: AcceptedIn(start, x) ==> AcceptedIn(now, x)
    ensures AcceptedInOrder(start, After(now, step), longer)
  {
    var after := After(now, step);
    if forall x :: AcceptedIn(after, x) ==> AcceptedIn(now, x) {
      longer := log;
    } else {
      var x :| AcceptedIn(after, x) && !AcceptedIn(now, x);
      StepAcceptsOne(now, step, x);
      forall y | AcceptedIn(after, y)
        ensures AcceptedIn(now, y) || y == x
      {
        if !AcceptedIn(now, y) {
          StepAcceptsOne(now, step, y);
        }
      }
      forall d | DependsOn(start, x, d)
        ensures AcceptedIn(now, d)
      {
        DependsOnIsFixed(start, now, x, d);
      }
      LogGrows(start, now, log, after, x);
      longer := log + [x];
    }
  }

  lemma SkeletonChains(a: Ledger, b: Ledger, c: Ledger)
    requires SameSkeleton(a, b) && SameSkeleton(b, c)
    ensures SameSkeleton(a, c) && (UniqueIds(a) ==> UniqueIds(c))
  {
  }

  lemma {:induction false} RunHasLog(start: Ledger, steps: seq<Step>) returns (log: seq<string>)
    requires UniqueIds(start)
    ensures SameSkeleton(start, Run(start, steps)) && UniqueIds(Run(start, steps))
    ensures forall x :: AcceptedIn(start, x) ==> AcceptedIn(Run(start, steps), x)
    ensures AcceptedInOrder(start, Run(start, steps), log)
  {
    log := [];
    if steps != [] {
      var before, step := steps[..|steps| - 1], steps[|steps| - 1];
      var now := Run(start, before);
      log := RunHasLog(start, before);
      log := StepExtendsLog(start, now, log, step);
      StepKeepsSkeleton(now, step);
      SkeletonChains(start, now, After(now, step));
      forall x | AcceptedIn(start, x)
        ensures AcceptedIn(After(now, step), x)
      {
        AcceptedStays(now, step, x);
      }
    }
  }

  /**
   Along dependencies the run order only goes back, until tasks accepted from the start are reached, and stays there.
   */
  lemma {:induction false} PathGoesBack(start: Ledger, now: Ledger, log: seq<string>, p: seq<string>, k: nat, n: nat)
    requires ClosedUnderDependencies(start) && UniqueIds(start) && AcceptedInOrder(start, now, log)
    requires DependencyPath(start, p) && k < |log| && p[0] == log[k] && 0 < n < |p|
    ensures AcceptedIn(start, p[n]) || p[n] in log[..k]
  {
    if n == 1 {
      assert DependsOn(start, log[k], p[1]);
    } else {
      PathGoesBack(start, now, log, p, k, n - 1);
      assert DependsOn(start, p[n - 1], p[n]);
      if AcceptedIn(start, p[n - 1]) {
        StartStaysClosed(start, p[n - 1], p[n]);
      } else {
        var m :| 0 <= m < k && log[..k][m] == p[n - 1];
        assert DependsOn(start, log[m], p[n]);
        assert log[..m] == log[..k][..m];
      }
    }
  }

  lemma StartStaysClosed(start: Ledger, x: string, y: string)
    requires ClosedUnderDependencies(start) && UniqueIds(start) && AcceptedIn(start, x) && DependsOn(start, x, y)
    ensures AcceptedIn(start, y)
  {
    var i :| 0 <= i < |start| && start[i].id == x && start[i].state == TaskAccepted;
    var j :| 0 <= j < |start| && start[j].id == x && y in start[j].dependencies;
    assert i == j;
  }

  predicate OnCycle(tasks: Ledger, p: seq<string>) {
    DependencyPath(tasks, p) && |p| >= 2 && p[0] == p[|p| - 1]
  }

  lemma {:induction false} PathMeetsStart(start: Ledger, now: Ledger, log: seq<string>, cycle: seq<string>, k: nat)
    requires ClosedUnderDependencies(start) && UniqueIds(start) && AcceptedInOrder(start, now, log)
    requires OnCycle(start, cycle) && k < |log| && cycle[0] == log[k]
    ensures exists m :: 0 <= m < k && log[m] == log[k]
  {
    PathGoesBack(start, now, log, cycle, k, |cycle| - 1);
    assert cycle[0] in log[..k];
    var m :| 0 <= m < k && log[..k][m] == cycle[0];
    assert log[m] == log[k];
  }

  /** A task on a dependency cycle is never newly accepted. */
  lemma {:induction false} CycleIsNeverAccepted(start: Ledger, now: Ledger, log: seq<string>, cycle: seq<string>,
                                                k: nat)
    requires ClosedUnderDependencies(start) && UniqueIds(start) && AcceptedInOrder(start, now, log)
    requires OnCycle(start, cycle) && k < |log|
    ensures cycle[0] != log[k]
    decreases k
  {
    if cycle[0] == log[k] {
      PathMeetsStart(start, now, log, cycle, k);
      var m :| 0 <= m < k && log[m] == log[k];
      CycleIsNeverAccepted(start, now, log, cycle, m);
    }
  }

  /** In no run is a task on a dependency cycle accepted unless it was accepted before the run. */
  lemma NoNewAcceptanceOnCycle(start: Ledger, steps: seq<Step>, cycle: seq<string>)
    requires UniqueIds(start) && ClosedUnderDependencies(start) && OnCycle(start, cycle)
    ensures AcceptedIn(Run(start, steps), cycle[0]) <==> AcceptedIn(start, cycle[0])
  {
    var log := RunHasLog(start, steps);
    if AcceptedIn(Run(start, steps), cycle[0]) && !AcceptedIn(start, cycle[0]) {
      var k :| 0 <= k < |log| && log[k] == cycle[0];
      CycleIsNeverAccepted(start, Run(start, steps), log, cycle, k);
    }
  }

  lemma {:induction false} DependenciesAreAccepted(tasks: Ledger, p: seq<string>)
    requires ClosedUnderDependencies(tasks) && UniqueIds(tasks) && DependencyPath(tasks, p) && AcceptedIn(tasks, p[0])
    ensures AcceptedIn(tasks, p[|p| - 1])
  {
    if |p| > 1 {
      assert DependsOn(tasks, p[0], p[1]);
      StartStaysClosed(tasks, p[0], p[1]);
      assert forall i :: 0 <= i < |p| - 2 ==> DependsOn(tasks, p[1..][i], p[1..][i + 1]) by {
        forall i | 0 <= i < |p| - 2
          ensures DependsOn(tasks, p[1..][i], p[1..][i + 1])
        {
          assert DependsOn(tasks, p[i + 1], p[i + 2]);
        }
      }
      DependenciesAreAccepted(tasks, p[1..]);
    }
  }

  lemma PathIsFixed(a: Ledger, b: Ledger, p: seq<string>)
    requires SameSkeleton(a, b) && DependencyPath(a, p)
    ensures DependencyPath(b, p)
  {
    forall i | 0 <= i < |p| - 1
      ensures DependsOn(b, p[i], p[i + 1])
    {
      assert DependsOn(a, p[i], p[i + 1]);
      DependsOnIsFixed(a, b, p[i], p[i + 1]);
    }
  }

  /** A task that depends on a cycle is accepted only if that cycle was accepted before the run. */
  lemma DependentOnCycleNeedsIt(start: Ledger, steps: seq<Step>, path: seq<string>, cycle: seq<string>)
    requires UniqueIds(start) && ClosedUnderDependencies(start)
    requires DependencyPath(start, path) && OnCycle(start, cycle) && path[|path| - 1] == cycle[0]
    requires AcceptedIn(Run(start, steps), path[0])
    ensures AcceptedIn(start, cycle[0])
  {
    var log := RunHasLog(start, steps);
    RunKeepsClosed(start, steps);
    PathIsFixed(start, Run(start, steps), path);
    DependenciesAreAccepted(Run(start, steps), path);
    NoNewAcceptanceOnCycle(start, steps, cycle);
  }

  /** The packet suits the task it names, whatever the rest of the ledger holds. */
  predicate PacketSuits(t: Task, a: AcceptancePacket) {
    && CanonicalTask(t) && ReceiptsOk(t) && t.state == TaskInProgress && t.blockedBy == [] && t.cycles != []
    && a.expected == t && Updated(t) < a.acceptedAt
  }

  lemma AcceptedStaysCanonical(t: Task, a: AcceptancePacket)
    requires CanonicalTask(t) && Updated(t) < a.acceptedAt
    ensures CanonicalTask(BuildAccepted(t, a))
  {
    var next := BuildAccepted(t, a);
    forall i | 0 <= i < |t.cycles|
      ensures CycleOk(next.cycles[i], i + 1, next.createdAt, Updated(next))
    {
      assert CycleOk(t.cycles[i], i + 1, t.createdAt, Updated(t));
    }
  }

  /**
   A packet accepts the task it names exactly when it suits that task and all the task's dependencies are accepted,
   on a dependency cycle or not.
   */
  lemma AcceptedExactlyWhenDependenciesAre(tasks: Ledger, i: nat, a: AcceptancePacket)
    requires UniqueIds(tasks) && i < |tasks| && tasks[i].id == a.task && tasks[i].state != TaskAccepted
    ensures AcceptedIn(After(tasks, Accept(a)), a.task)
            <==> PacketSuits(tasks[i], a) && forall d :: d in tasks[i].dependencies ==> AcceptedIn(tasks, d)
  {
    var t, step := tasks[i], Accept(a);
    var after := After(tasks, step);
    IndexFindsTask(tasks, a.task);
    assert IndexOfTask(tasks, a.task) == Some(i);
    StepKeepsSkeleton(tasks, step);
    assert AcceptedIn(after, a.task) <==> after[i].state == TaskAccepted;
    assert after[i].state == TaskAccepted <==> AcceptedTask(tasks, t, a).Ok?;
    if CanonicalTask(t) && Updated(t) < a.acceptedAt {
      AcceptedStaysCanonical(t, a);
    }
  }

  /** And then it can be: a self-dependent task accepted from the start lets its dependents be accepted. */
  lemma AcceptedCycleLetsDependentsThrough()
    ensures exists start, step ::
              && UniqueIds(start) && ClosedUnderDependencies(start) && OnCycle(start, ["A", "A"])
              && !AcceptedIn(start, "B") && DependsOn(start, "B", "A") && AcceptedIn(After(start, step), "B")
  {
    var done := Cycle(1, Some("c"), None, None, Completed, 0, Some(0), []);
    var a := Task("A", "owner", TaskAccepted, 0, Some(0), [], ["A"], [], Some("d"));
    var b := Task("B", "owner", TaskInProgress, 0, Some(0), [], ["A"], [done], None);
    var start := [a, b];
    var packet := AcceptancePacket("B", "e", b, 1);
    assert start[0].id == "A" && start[0].state == TaskAccepted && AcceptedIn(start, "A");
    assert DependsOn(start, "A", "A") && DependsOn(start, "B", "A") by {
      assert "A" in start[0].dependencies && "A" in start[1].dependencies;
    }
    assert OnCycle(start, ["A", "A"]);
    assert AcceptCycles(b.cycles, 1)[0] == AcceptCycle(done, 1);
    var next := BuildAccepted(b, packet);
    assert CanonicalTask(b) && ReceiptsOk(b) && CanonicalTask(next);
    assert AcceptedTask(start, b, packet) == Ok(next);
    IndexFindsTask(start, "B");
    var i := IndexOfTask(start, "B").value;
    assert i == 1;
    assert After(start, Accept(packet))[1] == next;
    assert AcceptedIn(After(start, Accept(packet)), "B");
  }
}
