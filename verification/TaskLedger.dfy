/**
 The task ledger of the direct task controller: progress packets append receipts to numbered execution cycles,
 acceptance closes a task once its dependencies are accepted and unblocks its dependents. A task's hash is
 modelled by the task, so a packet that expects a hash expects that very task.
 */
module TaskLedger {
  import opened Basics
  import opened Digraph

  datatype CycleStatus = InProgress | Completed | AcceptedCycle | UnsupportedCycle
  datatype Receipt = Receipt(digest: string, recordedAt: Time, recordedBy: string, cycle: int, cycleId: string,
                             status: CycleStatus)
  datatype Cycle = Cycle(
    number: int,
    id: Option<string>,
    kind: Option<string>,
    owner: Option<string>,
    status: CycleStatus,
    startedAt: Time,
    completedAt: Option<Time>,
    receipts: seq<Receipt>)
  datatype TaskState = Working | TaskInProgress | TaskAccepted | OtherTaskState
  datatype Task = Task(
    id: string,
    owner: string,
    state: TaskState,
    createdAt: Time,
    updatedAt: Option<Time>,
    blockedBy: seq<string>,
    dependencies: seq<string>,
    cycles: seq<Cycle>,
    acceptance: Option<string>)     // digest of the packet that accepted it
  type Ledger = seq<Task>

  datatype ProgressPacket = ProgressPacket(
    task: string, digest: string, expected: Task, recordedAt: Time, recordedBy: string,
    cycle: int, cycleId: string, kind: string, status: CycleStatus, startedAt: Time, completedAt: Option<Time>)
  datatype AcceptancePacket = AcceptancePacket(task: string, digest: string, expected: Task, acceptedAt: Time)

  datatype Error =
    | TaskMissing | StateUnsupported | PacketInvalid | TransitionInvalid | StateChanged
    | CycleSequenceInvalid | CycleIdentityChanged | AlreadyAccepted | DependencyOpen

  // ---------------------------------------------------------------- canonical tasks

  function Updated(t: Task): Time {
    if t.updatedAt.Some? then t.updatedAt.value else t.createdAt
  }

  predicate CycleOk(c: Cycle, number: int, created: Time, updated: Time) {
    && c.number == number
    && c.status != UnsupportedCycle
    && created <= c.startedAt <= updated
    && (c.status == InProgress ==> c.completedAt.None?)
    && (c.status != InProgress ==> c.completedAt.Some? && c.startedAt <= c.completedAt.value <= updated)
    && (forall r :: r in c.receipts ==> c.startedAt <= r.recordedAt <= updated)
  }

  /** `validateCanonicalTask`, apart from field formats. */
  predicate CanonicalTask(t: Task) {
    && t.createdAt <= Updated(t)
    && forall i :: 0 <= i < |t.cycles| ==> CycleOk(t.cycles[i], i + 1, t.createdAt, Updated(t))
  }

  // ---------------------------------------------------------------- receipts

  predicate ReceiptMatches(r: Receipt, c: Cycle, owner: string) {
    && r.recordedBy == owner
    && r.cycle == c.number
    && (c.id.Some? ==> r.cycleId == c.id.value)
    && (r.status == InProgress || r.status == Completed)
  }

  predicate Increasing(receipts: seq<Receipt>) {
    forall i, j :: 0 <= i < j < |receipts| ==> receipts[i].recordedAt < receipts[j].recordedAt
  }

  predicate DistinctDigests(receipts: seq<Receipt>) {
    forall i, j :: 0 <= i < j < |receipts| ==> receipts[i].digest != receipts[j].digest
  }

  predicate CycleReceiptsOk(c: Cycle, owner: string) {
    && DistinctDigests(c.receipts) && Increasing(c.receipts)
    && forall i :: 0 <= i < |c.receipts| ==> ReceiptMatches(c.receipts[i], c, owner)
  }

  predicate ReceiptsOk(t: Task) {
    forall i :: 0 <= i < |t.cycles| ==> CycleReceiptsOk(t.cycles[i], t.owner)
  }

  /** The first `n` receipts of a cycle are as they must be. */
  predicate FirstReceiptsOk(c: Cycle, owner: string, n: nat)
    requires n <= |c.receipts|
  {
    CycleReceiptsOk(c.(receipts := c.receipts[..n]), owner)
  }

  /** What one more receipt must satisfy: a new digest, a later time and the cycle's own metadata. */
  lemma OneMoreReceipt(c: Cycle, owner: string, n: nat)
    requires n < |c.receipts|
    ensures FirstReceiptsOk(c, owner, n + 1) <==>
            && FirstReceiptsOk(c, owner, n)
            && (forall k :: 0 <= k < n ==> c.receipts[k].digest != c.receipts[n].digest)
            && (n > 0 ==> c.receipts[n - 1].recordedAt < c.receipts[n].recordedAt)
            && ReceiptMatches(c.receipts[n], c, owner)
  {
    var some, more := c.receipts[..n], c.receipts[..n + 1];
    assert forall k :: 0 <= k < n ==> some[k] == more[k] == c.receipts[k];
    assert more[n] == c.receipts[n];
    assert forall r :: ReceiptMatches(r, c.(receipts := more), owner) <==> ReceiptMatches(r, c, owner);
    assert forall r :: ReceiptMatches(r, c.(receipts := some), owner) <==> ReceiptMatches(r, c, owner);
    if FirstReceiptsOk(c, owner, n) && n > 0 {
      assert forall k :: 0 <= k < n ==> k == n - 1 || some[k].recordedAt < some[n - 1].recordedAt;
    }
  }

  lemma {:induction false} GoodReceiptsStartGood(c: Cycle, owner: string, n: nat)
    requires n <= |c.receipts| && CycleReceiptsOk(c, owner)
    ensures FirstReceiptsOk(c, owner, n)
    decreases |c.receipts| - n
  {
    if n == |c.receipts| {
      assert c.(receipts := c.receipts[..n]) == c;
    } else {
      GoodReceiptsStartGood(c, owner, n + 1);
      OneMoreReceipt(c, owner, n);
    }
  }

  /** One cycle's receipts: the seen-set and the previous timestamp. */
  method CycleReceipts(c: Cycle, owner: string) returns (ok: bool)
    ensures ok <==> CycleReceiptsOk(c, owner)
  {
    if CycleReceiptsOk(c, owner) {
      forall n | 0 <= n <= |c.receipts|
        ensures FirstReceiptsOk(c, owner, n)
      {
        GoodReceiptsStartGood(c, owner, n);
      }
    }
    var seen: set<string> := {};
    var previous: Option<Time> := None;
    for i := 0 to |c.receipts|
      invariant forall d :: d in seen <==> exists k :: 0 <= k < i && c.receipts[k].digest == d
      invariant previous == if i == 0 then None else Some(c.receipts[i - 1].recordedAt)
      invariant FirstReceiptsOk(c, owner, i)
    {
      var r := c.receipts[i];
      OneMoreReceipt(c, owner, i);
      if r.digest in seen {
        return false;
      }
      seen := seen + {r.digest};
      if previous.Some? && r.recordedAt <= previous.value {
        return false;
      }
      previous := Some(r.recordedAt);
      if !ReceiptMatches(r, c, owner) {
        return false;
      }
    }
    assert c.(receipts := c.receipts[..|c.receipts|]) == c;
    ok := true;
  }

  /** `progressPacketReceipts` without the archive: every receipt of the task, or a refusal. */
  method ProgressPacketReceipts(t: Task) returns (r: Outcome<seq<Receipt>, Error>)
    ensures r.Ok? <==> ReceiptsOk(t)
    ensures r.Ok? ==> r.value == AllReceipts(t.cycles)
  {
    var result: seq<Receipt> := [];
    for i := 0 to |t.cycles|
      invariant forall k :: 0 <= k < i ==> CycleReceiptsOk(t.cycles[k], t.owner)
      invariant result == AllReceipts(t.cycles[..i])
    {
      var ok := CycleReceipts(t.cycles[i], t.owner);
      if !ok {
        return Err(StateUnsupported);
      }
      assert t.cycles[..i + 1][..i] == t.cycles[..i];
      result := result + t.cycles[i].receipts;
    }
    assert t.cycles[..|t.cycles|] == t.cycles;
    r := Ok(result);
  }

  function AllReceipts(cycles: seq<Cycle>): seq<Receipt> {
    if cycles == [] then [] else AllReceipts(cycles[..|cycles| - 1]) + cycles[|cycles| - 1].receipts
  }

  predicate Recorded(t: Task, digest: string) {
    exists i, j :: 0 <= i < |t.cycles| && 0 <= j < |t.cycles[i].receipts| && t.cycles[i].receipts[j].digest == digest
  }

  // ---------------------------------------------------------------- progress

  predicate ProgressPacketOk(t: Task, p: ProgressPacket) {
    && p.recordedBy == t.owner
    && t.createdAt <= p.recordedAt
    && 1 <= p.cycle
    && (p.status == InProgress || p.status == Completed)
    && (p.status == Completed ==> p.completedAt.Some? && p.startedAt <= p.completedAt.value <= p.recordedAt)
    && (p.status == InProgress ==> p.completedAt.None?)
    && p.startedAt <= p.recordedAt
  }

  predicate SameCycleIdentity(c: Cycle, p: ProgressPacket, owner: string) {
    && (c.id.Some? ==> c.id.value == p.cycleId)
    && (c.kind.Some? ==> c.kind.value == p.kind)
    && (c.owner.Some? ==> c.owner.value == owner)
    && c.startedAt == p.startedAt
  }

  function NewReceipt(p: ProgressPacket): Receipt {
    Receipt(p.digest, p.recordedAt, p.recordedBy, p.cycle, p.cycleId, p.status)
  }

  function NextCycle(p: ProgressPacket, owner: string, receipts: seq<Receipt>): Cycle {
    Cycle(p.cycle, Some(p.cycleId), Some(p.kind), Some(owner), p.status, p.startedAt, p.completedAt,
          receipts + [NewReceipt(p)])
  }

  /** `buildProgressTask` for a canonical task, whose cycle n sits at index n - 1. */
  function BuildProgress(t: Task, p: ProgressPacket): Outcome<Task, Error> {
    if !(1 <= p.cycle <= |t.cycles|) then
      if p.cycle != |t.cycles| + 1 then Err(CycleSequenceInvalid)
      else if exists c :: c in t.cycles && c.status == InProgress then Err(TransitionInvalid)
      else Ok(t.(state := TaskInProgress, cycles := t.cycles + [NextCycle(p, t.owner, [])],
                 updatedAt := Some(p.recordedAt)))
    else
      var current := t.cycles[p.cycle - 1];
      if current.status != InProgress then Err(TransitionInvalid)
      else if !SameCycleIdentity(current, p, t.owner) then Err(CycleIdentityChanged)
      else Ok(t.(state := TaskInProgress,
                 cycles := t.cycles[p.cycle - 1 := NextCycle(p, t.owner, current.receipts)],
                 updatedAt := Some(p.recordedAt)))
  }

  predicate MayTransition(t: Task, progress: bool) {
    (t.state == TaskInProgress || (progress && t.state == Working)) && t.blockedBy == []
  }

  function IndexOfTask(tasks: Ledger, id: string): Option<nat> {
    if tasks == [] then None
    else if tasks[0].id == id then Some(0)
    else match IndexOfTask(tasks[1..], id)
      case None => None
      case Some(i) => Some(i + 1)
  }

  lemma {:induction false} IndexFindsTask(tasks: Ledger, id: string)
    ensures IndexOfTask(tasks, id).Some? ==>
              IndexOfTask(tasks, id).value < |tasks| && tasks[IndexOfTask(tasks, id).value].id == id
    ensures IndexOfTask(tasks, id).None? ==> forall i :: 0 <= i < |tasks| ==> tasks[i].id != id
  {
    if tasks != [] && tasks[0].id != id {
      IndexFindsTask(tasks[1..], id);
      assert forall i :: 1 <= i < |tasks| ==> tasks[i] == tasks[1..][i - 1];
    }
  }

  /** A command's new task must advance the revision and be canonical. */
  function Revised(current: Task, next: Task): Outcome<Task, Error> {
    if Updated(next) <= Updated(current) then Err(StateChanged)
    else if !CanonicalTask(next) then Err(StateUnsupported)
    else Ok(next)
  }

  /** What recording a packet does to the task it names: the task unchanged when the packet is already recorded. */
  function ProgressedTask(current: Task, p: ProgressPacket): Outcome<Task, Error> {
    if !CanonicalTask(current) || !ReceiptsOk(current) then Err(StateUnsupported)
    else if !ProgressPacketOk(current, p) then Err(PacketInvalid)
    else if Recorded(current, p.digest) then Ok(current)
    else if !MayTransition(current, true) then Err(TransitionInvalid)
    else if p.expected != current then Err(StateChanged)
    else match BuildProgress(current, p)
      case Err(e) => Err(e)
      case Ok(next) => Revised(current, next)
  }

  // ---------------------------------------------------------------- acceptance

  function AcceptCycle(c: Cycle, at: Time): Cycle {
    c.(status := AcceptedCycle, completedAt := if c.completedAt.Some? then c.completedAt else Some(at))
  }

  function AcceptCycles(cycles: seq<Cycle>, at: Time): (r: seq<Cycle>)
    ensures |r| == |cycles| && forall i :: 0 <= i < |cycles| ==> r[i] == AcceptCycle(cycles[i], at)
  {
    seq(|cycles|, i requires 0 <= i < |cycles| => AcceptCycle(cycles[i], at))
  }

  function BuildAccepted(t: Task, a: AcceptancePacket): Task {
    t.(state := TaskAccepted, cycles := AcceptCycles(t.cycles, a.acceptedAt), acceptance := Some(a.digest),
       updatedAt := Some(a.acceptedAt))
  }

  predicate AcceptedIn(tasks: Ledger, id: string) {
    exists i :: 0 <= i < |tasks| && tasks[i].id == id && tasks[i].state == TaskAccepted
  }

  /** What accepting does to the task the packet names. */
  function AcceptedTask(tasks: Ledger, current: Task, a: AcceptancePacket): Outcome<Task, Error> {
    if !CanonicalTask(current) || !ReceiptsOk(current) then Err(StateUnsupported)
    else if current.state == TaskAccepted then
      if current.acceptance == Some(a.digest) then Ok(current) else Err(AlreadyAccepted)
    else if current.cycles == [] || a.acceptedAt < current.createdAt then Err(PacketInvalid)
    else if !MayTransition(current, false) then Err(TransitionInvalid)
    else if a.expected != current then Err(StateChanged)
    else if exists d :: d in current.dependencies && !AcceptedIn(tasks, d) then Err(DependencyOpen)
    else
      Revised(current, BuildAccepted(current, a))
  }

  function Latest(left: Option<Time>, right: Time): Time {
    if left.Some? && left.value >= right then left.value else right
  }

  /** `dependentAfterAcceptance`: only a task blocked by a dependency is touched, and only its block and its time. */
  function Dependent(t: Task, accepted: string, at: Time): (r: Task)
    ensures r == t.(blockedBy := r.blockedBy, updatedAt := r.updatedAt)
    ensures accepted in t.dependencies ==> accepted !in r.blockedBy
    ensures forall b :: b != accepted ==> (b in r.blockedBy <==> b in t.blockedBy)
    ensures accepted !in t.dependencies || accepted !in t.blockedBy ==> r == t
    ensures t.updatedAt.Some? ==> r.updatedAt.Some? && t.updatedAt.value <= r.updatedAt.value
  {
    if accepted in t.blockedBy && accepted in t.dependencies
    then t.(blockedBy := Without(t.blockedBy, accepted), updatedAt := Some(Latest(t.updatedAt, at)))
    else t
  }

  function Dependents(tasks: Ledger, accepted: string, at: Time): (r: Ledger)
    ensures |r| == |tasks| && forall i :: 0 <= i < |tasks| ==> r[i] == Dependent(tasks[i], accepted, at)
  {
    seq(|tasks|, i requires 0 <= i < |tasks| => Dependent(tasks[i], accepted, at))
  }

  // ---------------------------------------------------------------- steps and runs

  datatype Step = Progress(p: ProgressPacket) | Accept(a: AcceptancePacket)

  predicate UniqueIds(tasks: Ledger) {
    forall i, j :: 0 <= i < j < |tasks| ==> tasks[i].id != tasks[j].id
  }

  /** The ledger after one command, or its refusal. */
  function Apply(tasks: Ledger, step: Step): Outcome<Ledger, Error> {
    if !UniqueIds(tasks) then Err(StateUnsupported)
    else
      var id := if step.Progress? then step.p.task else step.a.task;
      match IndexOfTask(tasks, id)
      case None => Err(TaskMissing)
      case Some(i) => (
        IndexFindsTask(tasks, id);
        if step.Progress? then
          match ProgressedTask(tasks[i], step.p)
          case Err(e) => Err(e)
          case Ok(next) => Ok(tasks[i := next])
        else
          match AcceptedTask(tasks, tasks[i], step.a)
          case Err(e) => Err(e)
          case Ok(next) =>
            if tasks[i].state == TaskAccepted then Ok(tasks)
            else Ok(Dependents(tasks, id, step.a.acceptedAt)[i := next])
      )
  }

  /** A refused command leaves the ledger as it was. */
  function After(tasks: Ledger, step: Step): Ledger {
    match Apply(tasks, step)
    case Ok(next) => next
    case Err(_) => tasks
  }

  function Run(tasks: Ledger, steps: seq<Step>): Ledger {
    if steps == [] then tasks else After(Run(tasks, steps[..|steps| - 1]), steps[|steps| - 1])
  }

  /** How one command changes each task: not at all, by progress, by acceptance, or by unblocking. */
  datatype Change =
    | Unchanged | Progressed(p: ProgressPacket) | Accepted(a: AcceptancePacket) | Unblocked(id: string, at: Time)

  predicate Changes(before: Ledger, i: nat, after: Task, c: Change)
    requires i < |before|
  {
    match c
    case Unchanged => after == before[i]
    case Progressed(p) => ProgressedTask(before[i], p) == Ok(after)
    case Accepted(a) =>
      && before[i].state != TaskAccepted && before[i].id == a.task
      && AcceptedTask(before, before[i], a) == Ok(after)
    case Unblocked(id, at) => after == Dependent(before[i], id, at)
  }

  lemma StepChanges(tasks: Ledger, step: Step, i: nat) returns (c: Change)
    requires i < |tasks|
    ensures |After(tasks, step)| == |tasks| && Changes(tasks, i, After(tasks, step)[i], c)
    ensures c.Accepted? ==> step == Accept(c.a)
    ensures c.Progressed? ==> step == Progress(c.p)
  {
    c := Unchanged;
    var id := if step.Progress? then step.p.task else step.a.task;
    IndexFindsTask(tasks, id);
    if Apply(tasks, step).Ok? {
      var k := IndexOfTask(tasks, id).value;
      if step.Progress? && i == k {
        c := Progressed(step.p);
      } else if step.Accept? && tasks[k].state != TaskAccepted {
        c := if i == k then Accepted(step.a) else Unblocked(id, step.a.acceptedAt);
      }
    }
  }

  // ---------------------------------------------------------------- the controller

  predicate Unblocks(t: Task, accepted: string) {
    accepted in t.blockedBy && accepted in t.dependencies
  }

  /** Another of the first `n` tasks, blocked by the accepted one. */
  predicate IsUnblocked(tasks: Ledger, accepted: string, id: string, n: nat)
    requires n <= |tasks|
  {
    id != accepted && exists i :: 0 <= i < n && tasks[i].id == id && Unblocks(tasks[i], accepted)
  }

  /** The ledger file, updated in place under its lock by the two commands. */
  class TaskController {
    var tasks: Ledger

    constructor (tasks: Ledger)
      ensures this.tasks == tasks
    {
      this.tasks := tasks;
    }

    method FindTask(id: string) returns (found: Option<nat>)
      ensures found == IndexOfTask(tasks, id)
    {
      for i := 0 to |tasks|
        invariant IndexOfTask(tasks, id) == Shifted(IndexOfTask(tasks[i..], id), i)
      {
        assert tasks[i..][1..] == tasks[i + 1..];
        if tasks[i].id == id {
          return Some(i);
        }
      }
      found := None;
    }

    method RecordProgress(p: ProgressPacket) returns (r: Outcome<Task, Error>)
      modifies this
      ensures tasks == After(old(tasks), Progress(p))
      ensures r.Ok? <==> Apply(old(tasks), Progress(p)).Ok?
      ensures r.Ok? ==> r.value in tasks && r.value.id == p.task
    {
      if !UniqueIds(tasks) { return Err(StateUnsupported); }
      var found := FindTask(p.task);
      IndexFindsTask(tasks, p.task);
      if found.None? { return Err(TaskMissing); }
      var next := ProgressedTask(tasks[found.value], p);
      if next.Err? { return Err(next.error); }
      tasks := tasks[found.value := next.value];
      r := Ok(next.value);
      assert tasks[found.value] in tasks;
    }

    /** Returns the ids of the tasks the acceptance unblocks. */
    method AcceptDirect(a: AcceptancePacket) returns (r: Outcome<set<string>, Error>)
      modifies this
      ensures tasks == After(old(tasks), Accept(a))
      ensures r.Ok? <==> Apply(old(tasks), Accept(a)).Ok?
      ensures r.Ok? ==> forall id ::
                id in r.value <==> !AcceptedIn(old(tasks), a.task) && IsUnblocked(old(tasks), a.task, id, |old(tasks)|)
    {
      if !UniqueIds(tasks) { return Err(StateUnsupported); }
      var found := FindTask(a.task);
      IndexFindsTask(tasks, a.task);
      if found.None? { return Err(TaskMissing); }
      var k := found.value;
      var accepted := AcceptedTask(tasks, tasks[k], a);
      if accepted.Err? { return Err(accepted.error); }
      if tasks[k].state == TaskAccepted { return Ok({}); }
      var next, unblocked := MapTasks(k, accepted.value, a);
      tasks := next;
      r := Ok(unblocked);
    }

    method MapTasks(k: nat, accepted: Task, a: AcceptancePacket) returns (next: Ledger, unblocked: set<string>)
      requires k < |tasks| && UniqueIds(tasks) && tasks[k].id == a.task
      ensures next == Dependents(tasks, a.task, a.acceptedAt)[k := accepted]
      ensures forall id :: id in unblocked <==> IsUnblocked(tasks, a.task, id, |tasks|)
    {
      next, unblocked := [], {};
      for i := 0 to |tasks|
        invariant |next| == i
        invariant forall n :: 0 <= n < i ==>
                  next[n] == if n == k then accepted else Dependent(tasks[n], a.task, a.acceptedAt)
        invariant forall id :: id in unblocked <==> IsUnblocked(tasks, a.task, id, i)
      {
        if tasks[i].id == a.task {
          next := next + [accepted];
        } else {
          if Unblocks(tasks[i], a.task) {
            unblocked := unblocked + {tasks[i].id};
          }
          next := next + [Dependent(tasks[i], a.task, a.acceptedAt)];
        }
      }
    }
  }

  function Shifted(i: Option<nat>, n: nat): Option<nat> {
    if i.None? then None else Some(i.value + n)
  }
}
