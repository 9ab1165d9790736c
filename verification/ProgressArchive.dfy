/**
 The durable side of recording progress: under the ledger lock a packet is first written to the content-addressed
 archive and only then receipted in the ledger; afterwards the receipts are projected, one by one, into an
 append-only event log that refuses two lines of one id. A crash may fall between any two writes, and any number
 of processes may project old or new snapshots of a task. A digest is modelled by the content it addresses.
 */
module ProgressArchive {
  import opened Basics
  import opened TaskLedger
  import opened TaskLedgerLaws

  // ---------------------------------------------------------------- the event log

  /** The line projected for one receipt of a task; its event id is made of the task and the digest. */
  datatype Line = Line(task: string, receipt: Receipt)

  function EventId(l: Line): (string, string) {
    (l.task, l.receipt.digest)
  }

  datatype AppendStatus = Appended | AlreadyPresent | Collision

  predicate HasEvent(log: seq<Line>, id: (string, string)) {
    exists i :: 0 <= i < |log| && EventId(log[i]) == id
  }

  predicate UniqueEvents(log: seq<Line>) {
    forall i, j :: 0 <= i < j < |log| ==> EventId(log[i]) != EventId(log[j])
  }

  /** `appendJsonlAtomic` under the log's lock: the first line of the same id decides. */
  method AppendLine(log: seq<Line>, line: Line) returns (next: seq<Line>, status: AppendStatus)
    ensures status == Appended <==> !HasEvent(log, EventId(line))
    ensures status == Appended ==> next == log + [line]
    ensures status != Appended ==> next == log
    ensures UniqueEvents(log) ==> (status == AlreadyPresent <==> line in log)
    ensures status == Collision ==> exists i :: 0 <= i < |log| && EventId(log[i]) == EventId(line) && log[i] != line
  {
    for i := 0 to |log|
      invariant forall k :: 0 <= k < i ==> EventId(log[k]) != EventId(line)
    {
      if EventId(log[i]) == EventId(line) {
        if log[i] != line {
          return log, Collision;
        }
        return log, AlreadyPresent;
      }
    }
    next, status := log + [line], Appended;
  }

  /** The log after projecting one receipt, when no line of its id tells a different story. */
  function Projected(log: seq<Line>, line: Line): seq<Line> {
    if HasEvent(log, EventId(line)) then log else log + [line]
  }

  // ---------------------------------------------------------------- the world

  /** A command under way inside the ledger lock, and whether its packet has reached the archive. */
  datatype Recording = Recording(p: ProgressPacket, archived: bool)

  /** A process projecting a snapshot of a task: the first `done` receipts are in the log. */
  datatype Projection = Projection(snapshot: Task, done: nat)

  datatype World = World(
    ledger: Ledger,
    archive: map<string, string>,
    log: seq<Line>,
    recording: Option<Recording>,
    projections: map<nat, Projection>)

  datatype Move =
    | BeginRecording(p: ProgressPacket) | WriteArchive | WriteLedger | StopRecording
    | AcceptTask(a: AcceptancePacket)
    | BeginProjection(pid: nat, task: nat) | ProjectNext(pid: nat) | EndProjection(pid: nat)

  function Receipts(t: Task): seq<Receipt> {
    AllReceipts(t.cycles)
  }

  predicate CanProject(w: World, pid: nat) {
    pid in w.projections && w.projections[pid].done < |Receipts(w.projections[pid].snapshot)|
  }

  function NextLine(w: World, pid: nat): Line
    requires CanProject(w, pid)
  {
    Line(w.projections[pid].snapshot.id, Receipts(w.projections[pid].snapshot)[w.projections[pid].done])
  }

  function AfterProjecting(w: World, pid: nat): World
    requires CanProject(w, pid)
  {
    w.(log := Projected(w.log, NextLine(w, pid)),
       projections := w.projections[pid := w.projections[pid].(done := w.projections[pid].done + 1)])
  }

  function Next(w: World, m: Move): Option<World> {
    match m
    case BeginRecording(p) =>
      if w.recording.None? && Apply(w.ledger, Progress(p)).Ok?
      then Some(w.(recording := Some(Recording(p, false)))) else None
    case WriteArchive =>
      if w.recording.Some? && !w.recording.value.archived then
        var d := w.recording.value.p.digest;
        var archive := if d in w.archive then w.archive else w.archive[d := d];
        // a content address that already holds something else stops the command
        if archive[d] == d then Some(w.(archive := archive, recording := Some(Recording(w.recording.value.p, true))))
        else Some(w.(recording := None))
      else None
    case WriteLedger =>
      if w.recording.Some? && w.recording.value.archived
      then Some(w.(ledger := After(w.ledger, Progress(w.recording.value.p)), recording := None)) else None
    case StopRecording => Some(w.(recording := None))
    case AcceptTask(a) => if w.recording.None? then Some(w.(ledger := After(w.ledger, Accept(a)))) else None
    case BeginProjection(pid, i) =>
      if i < |w.ledger| then Some(w.(projections := w.projections[pid := Projection(w.ledger[i], 0)])) else None
    case ProjectNext(pid) => if CanProject(w, pid) then Some(AfterProjecting(w, pid)) else None
    case EndProjection(pid) => Some(w.(projections := w.projections - {pid}))
  }

  function Run(w: World, moves: seq<Move>): Option<World> {
    if moves == [] then Some(w)
    else match Run(w, moves[..|moves| - 1])
      case None => None
      case Some(v) => Next(v, moves[|moves| - 1])
  }

  // ---------------------------------------------------------------- what every run keeps

  predicate Archived(archive: map<string, string>, d: string) {
    d in archive && archive[d] == d
  }

  /** Every receipt of the ledger has its packet in the archive. */
  predicate ReceiptsArchived(w: World) {
    && (forall i, k :: 0 <= i < |w.ledger| && 0 <= k < |Receipts(w.ledger[i])| ==>
        Archived(w.archive, Receipts(w.ledger[i])[k].digest))
    && (w.recording.Some? && w.recording.value.archived ==> Archived(w.archive, w.recording.value.p.digest))
  }

  /** A line tells of a receipt the ledger holds. */
  predicate Backed(ledger: Ledger, l: Line) {
    exists i :: 0 <= i < |ledger| && ledger[i].id == l.task && l.receipt in Receipts(ledger[i])
  }

  predicate LogBacked(w: World) {
    UniqueEvents(w.log) && forall k :: 0 <= k < |w.log| ==> Backed(w.ledger, w.log[k])
  }

  /** A snapshot's receipts are the first receipts of the task as it is now. */
  predicate SnapshotOf(ledger: Ledger, t: Task) {
    exists i :: 0 <= i < |ledger| && ledger[i].id == t.id && Receipts(t) <= Receipts(ledger[i])
  }

  predicate ProjectionOk(w: World, pr: Projection) {
    && SnapshotOf(w.ledger, pr.snapshot)
    && pr.done <= |Receipts(pr.snapshot)|
    && forall k :: 0 <= k < pr.done ==> Line(pr.snapshot.id, Receipts(pr.snapshot)[k]) in w.log
  }

  predicate ProjectionsOk(w: World) {
    forall pid :: pid in w.projections ==> ProjectionOk(w, w.projections[pid])
  }

  predicate Durable(w: World) {
    LedgerOk(w.ledger) && ReceiptsArchived(w) && LogBacked(w) && ProjectionsOk(w)
  }

  // ---- one command at a time

  /** The packet being recorded is one the ledger accepts. */
  predicate RecordingIsCurrent(w: World) {
    w.recording.Some? ==> Apply(w.ledger, Progress(w.recording.value.p)).Ok?
  }

  /** Commands exclude each other; one begins only on a packet the ledger accepts, and writes the ledger last. */
  lemma CommandsExclude(w: World, m: Move)
    requires RecordingIsCurrent(w) && Next(w, m).Some?
    ensures RecordingIsCurrent(Next(w, m).value)
    ensures w.recording.Some? ==> !m.BeginRecording? && !m.AcceptTask?
    ensures w.recording.Some? && !m.WriteLedger? ==> Next(w, m).value.ledger == w.ledger
    ensures m.WriteLedger? ==> w.recording.Some? && w.recording.value.archived
  {
  }

  lemma {:induction false} RunKeepsCurrent(w: World, moves: seq<Move>)
    requires RecordingIsCurrent(w) && Run(w, moves).Some?
    ensures RecordingIsCurrent(Run(w, moves).value)
  {
    if moves != [] {
      RunKeepsCurrent(w, moves[..|moves| - 1]);
      CommandsExclude(Run(w, moves[..|moves| - 1]).value, moves[|moves| - 1]);
    }
  }

  /** So whatever else went on, the write of the ledger does what the packet asks for. */
  lemma RecordingTakesEffect(w: World, moves: seq<Move>)
    requires w.recording.None? && Run(w, moves).Some? && Next(Run(w, moves).value, WriteLedger).Some?
    ensures var v := Run(w, moves).value;
            && v.recording.Some? && Apply(v.ledger, Progress(v.recording.value.p)).Ok?
            && Next(v, WriteLedger).value.ledger == Apply(v.ledger, Progress(v.recording.value.p)).value
            && Next(v, WriteLedger).value.recording.None?
  {
    RunKeepsCurrent(w, moves);
  }

  /** What a command may begin with, when nothing is being recorded. */
  lemma IdleLedgerTakesCommands(w: World, p: ProgressPacket, a: AcceptancePacket)
    requires w.recording.None?
    ensures Next(w, BeginRecording(p)).Some? <==> Apply(w.ledger, Progress(p)).Ok?
    ensures Next(w, AcceptTask(a)) == Some(w.(ledger := After(w.ledger, Accept(a))))
  {
  }

  // ---- the ledger only gains receipts

  lemma ReceiptsGrow(tasks: Ledger, step: Step, i: nat)
    requires i < |tasks| && TaskOk(tasks[i])
    ensures |After(tasks, step)| == |tasks| && After(tasks, step)[i].id == tasks[i].id
    ensures Receipts(tasks[i]) <= Receipts(After(tasks, step)[i])
    ensures step.Progress? ==> Receipts(After(tasks, step)[i]) == Receipts(tasks[i])
                               || Receipts(After(tasks, step)[i]) == Receipts(tasks[i]) + [NewReceipt(step.p)]
    ensures step.Accept? ==> Receipts(After(tasks, step)[i]) == Receipts(tasks[i])
  {
    StepKeepsSkeleton(tasks, step);
    match step
    case Progress(p) => ProgressGrows(tasks, p, i);
    case Accept(a) => NoProgressByAccepting(tasks, a, i);
  }

  lemma ProgressGrows(tasks: Ledger, p: ProgressPacket, i: nat)
    requires i < |tasks| && TaskOk(tasks[i])
    ensures |After(tasks, Progress(p))| == |tasks|
    ensures Receipts(After(tasks, Progress(p))[i]) == Receipts(tasks[i])
            || Receipts(After(tasks, Progress(p))[i]) == Receipts(tasks[i]) + [NewReceipt(p)]
  {
    IndexFindsTask(tasks, p.task);
    if Apply(tasks, Progress(p)).Ok? && IndexOfTask(tasks, p.task).value == i && !Recorded(tasks[i], p.digest) {
      ReceiptsExtend(tasks[i], p, ProgressedTask(tasks[i], p).value);
    }
  }

  lemma NoProgressByAccepting(tasks: Ledger, a: AcceptancePacket, i: nat)
    requires i < |tasks| && TaskOk(tasks[i])
    ensures |After(tasks, Accept(a))| == |tasks|
    ensures Receipts(After(tasks, Accept(a))[i]) == Receipts(tasks[i])
  {
    var c := StepChanges(tasks, Accept(a), i);
    var after := After(tasks, Accept(a))[i];
    if c.Accepted? {
      assert after.cycles == AcceptCycles(tasks[i].cycles, a.acceptedAt);
      AcceptKeepsReceipts(tasks[i].cycles, a.acceptedAt);
    } else {
      assert after.cycles == tasks[i].cycles;
    }
  }

  lemma BackedStays(tasks: Ledger, step: Step, l: Line)
    requires LedgerOk(tasks) && Backed(tasks, l)
    ensures Backed(After(tasks, step), l)
  {
    var i :| 0 <= i < |tasks| && tasks[i].id == l.task && l.receipt in Receipts(tasks[i]);
    ReceiptsGrow(tasks, step, i);
    var k :| 0 <= k < |Receipts(tasks[i])| && Receipts(tasks[i])[k] == l.receipt;
    assert Receipts(After(tasks, step)[i])[k] == l.receipt;
  }

  lemma SnapshotStays(tasks: Ledger, step: Step, t: Task)
    requires LedgerOk(tasks) && SnapshotOf(tasks, t)
    ensures SnapshotOf(After(tasks, step), t)
  {
    var i :| 0 <= i < |tasks| && tasks[i].id == t.id && Receipts(t) <= Receipts(tasks[i]);
    ReceiptsGrow(tasks, step, i);
    assert Receipts(t) <= Receipts(After(tasks, step)[i]);
  }

  /** A ledger command, whose new receipt (if any) is archived, keeps everything. */
  lemma LedgerStepKeepsDurable(w: World, step: Step)
    requires Durable(w) && (step.Progress? ==> Archived(w.archive, step.p.digest))
    ensures Durable(w.(ledger := After(w.ledger, step), recording := None))
  {
    var v := w.(ledger := After(w.ledger, step), recording := None);
    StepKeepsLedgerOk(w.ledger, step);
    StepKeepsSkeleton(w.ledger, step);
    forall i, k | 0 <= i < |v.ledger| && 0 <= k < |Receipts(v.ledger[i])|
      ensures Archived(v.archive, Receipts(v.ledger[i])[k].digest)
    {
      ReceiptsGrow(w.ledger, step, i);
      assert k < |Receipts(w.ledger[i])| ==> Receipts(v.ledger[i])[k] == Receipts(w.ledger[i])[k];
    }
    forall k | 0 <= k < |v.log|
      ensures Backed(v.ledger, v.log[k])
    {
      BackedStays(w.ledger, step, w.log[k]);
    }
    forall pid | pid in v.projections
      ensures ProjectionOk(v, v.projections[pid])
    {
      assert ProjectionOk(w, w.projections[pid]);
      SnapshotStays(w.ledger, step, w.projections[pid].snapshot);
    }
  }

  // ---- the log never collides

  lemma TaskOfIdIsUnique(tasks: Ledger, i: nat, j: nat)
    requires UniqueIds(tasks) && i < |tasks| && j < |tasks| && tasks[i].id == tasks[j].id
    ensures i == j
  {
  }

  /** Two backed lines of one event id are the same line. */
  lemma BackedLinesAgree(tasks: Ledger, a: Line, b: Line)
    requires LedgerOk(tasks) && Backed(tasks, a) && Backed(tasks, b) && EventId(a) == EventId(b)
    ensures a == b
  {
    var i :| 0 <= i < |tasks| && tasks[i].id == a.task && a.receipt in Receipts(tasks[i]);
    var j :| 0 <= j < |tasks| && tasks[j].id == b.task && b.receipt in Receipts(tasks[j]);
    TaskOfIdIsUnique(tasks, i, j);
    var all := Receipts(tasks[i]);
    assert DistinctDigests(all);
    var k :| 0 <= k < |all| && all[k] == a.receipt;
    var l :| 0 <= l < |all| && all[l] == b.receipt;
    assert k == l;
  }

  lemma NextLineIsBacked(w: World, pid: nat)
    requires Durable(w) && CanProject(w, pid)
    ensures Backed(w.ledger, NextLine(w, pid))
  {
    var pr := w.projections[pid];
    assert ProjectionOk(w, pr);
    var i :| 0 <= i < |w.ledger| && w.ledger[i].id == pr.snapshot.id && Receipts(pr.snapshot) <= Receipts(w.ledger[i]);
    assert Receipts(w.ledger[i])[pr.done] == Receipts(pr.snapshot)[pr.done];
  }

  /** Projecting a receipt never collides: a line of its event id is already that very line. */
  lemma ProjectionNeverCollides(w: World, pid: nat)
    requires Durable(w) && CanProject(w, pid)
    ensures HasEvent(w.log, EventId(NextLine(w, pid))) ==> NextLine(w, pid) in w.log
  {
    NextLineIsBacked(w, pid);
    if HasEvent(w.log, EventId(NextLine(w, pid))) {
      var i :| 0 <= i < |w.log| && EventId(w.log[i]) == EventId(NextLine(w, pid));
      BackedLinesAgree(w.ledger, w.log[i], NextLine(w, pid));
    }
  }

  lemma ProjectedIsIn(w: World, pid: nat)
    requires Durable(w) && CanProject(w, pid)
    ensures w.log <= Projected(w.log, NextLine(w, pid)) && NextLine(w, pid) in Projected(w.log, NextLine(w, pid))
    ensures UniqueEvents(Projected(w.log, NextLine(w, pid)))
    ensures forall k :: 0 <= k < |Projected(w.log, NextLine(w, pid))| ==>
              Backed(w.ledger, Projected(w.log, NextLine(w, pid))[k])
  {
    ProjectionNeverCollides(w, pid);
    NextLineIsBacked(w, pid);
  }

  lemma LinesStay(log: seq<Line>, longer: seq<Line>, l: Line)
    requires log <= longer && l in log
    ensures l in longer
  {
    var k :| 0 <= k < |log| && log[k] == l;
    assert longer[k] == l;
  }

  /** A projection that was right stays right while the log only grows. */
  lemma LongerLogKeepsProjection(w: World, v: World, pr: Projection)
    requires ProjectionOk(w, pr) && w.log <= v.log && v.ledger == w.ledger
    ensures ProjectionOk(v, pr)
  {
    forall k | 0 <= k < pr.done
      ensures Line(pr.snapshot.id, Receipts(pr.snapshot)[k]) in v.log
    {
      LinesStay(w.log, v.log, Line(pr.snapshot.id, Receipts(pr.snapshot)[k]));
    }
  }

  /** Once its next line is in the log a projection may go on to the one after. */
  lemma LineAdvancesProjection(v: World, pr: Projection)
    requires ProjectionOk(v, pr) && pr.done < |Receipts(pr.snapshot)|
    requires Line(pr.snapshot.id, Receipts(pr.snapshot)[pr.done]) in v.log
    ensures ProjectionOk(v, pr.(done := pr.done + 1))
  {
  }

  lemma ProjectKeepsProjections(w: World, v: World, pid: nat)
    requires ProjectionsOk(w) && CanProject(w, pid) && w.log <= v.log && NextLine(w, pid) in v.log
    requires v.ledger == w.ledger
    requires v.projections == w.projections[pid := w.projections[pid].(done := w.projections[pid].done + 1)]
    ensures ProjectionsOk(v)
  {
    forall q | q in v.projections
      ensures ProjectionOk(v, v.projections[q])
    {
      LongerLogKeepsProjection(w, v, w.projections[q]);
      if q == pid {
        LineAdvancesProjection(v, w.projections[q]);
      }
    }
  }

  lemma ProjectKeepsDurable(w: World, pid: nat)
    requires Durable(w) && CanProject(w, pid)
    ensures Durable(AfterProjecting(w, pid))
  {
    ProjectedIsIn(w, pid);
    ProjectKeepsProjections(w, AfterProjecting(w, pid), pid);
  }

  // ---- all moves

  lemma ArchiveKeepsDurable(w: World)
    requires Durable(w) && Next(w, WriteArchive).Some?
    ensures Durable(Next(w, WriteArchive).value)
  {
    var v := Next(w, WriteArchive).value;
    assert forall d :: Archived(w.archive, d) ==> Archived(v.archive, d);
    forall pid | pid in v.projections
      ensures ProjectionOk(v, v.projections[pid])
    {
      assert ProjectionOk(w, w.projections[pid]);
    }
  }

  lemma BeginProjectionKeepsDurable(w: World, pid: nat, i: nat)
    requires Durable(w) && i < |w.ledger|
    ensures Durable(Next(w, BeginProjection(pid, i)).value)
  {
    var v := Next(w, BeginProjection(pid, i)).value;
    forall q | q in v.projections
      ensures ProjectionOk(v, v.projections[q])
    {
      if q == pid {
        assert SnapshotOf(v.ledger, v.ledger[i]);
      } else {
        assert ProjectionOk(w, w.projections[q]);
      }
    }
  }

  lemma OtherMovesKeepDurable(w: World, m: Move)
    requires Durable(w) && (m.BeginRecording? || m.StopRecording? || m.EndProjection?) && Next(w, m).Some?
    ensures Durable(Next(w, m).value)
  {
    var v := Next(w, m).value;
    forall q | q in v.projections
      ensures ProjectionOk(v, v.projections[q])
    {
      assert ProjectionOk(w, w.projections[q]);
    }
  }

  lemma MoveKeepsDurable(w: World, m: Move)
    requires Durable(w) && Next(w, m).Some?
    ensures Durable(Next(w, m).value)
  {
    match m
    case WriteArchive => ArchiveKeepsDurable(w);
    case WriteLedger => LedgerStepKeepsDurable(w, Progress(w.recording.value.p));
    case AcceptTask(a) => LedgerStepKeepsDurable(w, Accept(a));
    case BeginProjection(pid, i) => BeginProjectionKeepsDurable(w, pid, i);
    case ProjectNext(pid) => ProjectKeepsDurable(w, pid);
    case _ => OtherMovesKeepDurable(w, m);
  }

  /**
   However commands, crashes and projections interleave, every receipt of the ledger has its packet in the archive
   and every line of the log tells of a receipt, at most once each.
   */
  lemma {:induction false} RunStaysDurable(w: World, moves: seq<Move>)
    requires Durable(w) && Run(w, moves).Some?
    ensures Durable(Run(w, moves).value)
  {
    if moves != [] {
      var before := moves[..|moves| - 1];
      RunStaysDurable(w, before);
      MoveKeepsDurable(Run(w, before).value, moves[|moves| - 1]);
    }
  }

  /** A finished projection of the current task leaves exactly one line for each of its receipts. */
  lemma CurrentProjectionIsComplete(w: World, moves: seq<Move>, pid: nat, i: nat, k: nat)
    requires Durable(w) && Run(w, moves).Some?
    requires var v := Run(w, moves).value;
             && pid in v.projections && i < |v.ledger| && v.projections[pid].snapshot == v.ledger[i]
             && v.projections[pid].done == |Receipts(v.ledger[i])| && k < |Receipts(v.ledger[i])|
    ensures var v := Run(w, moves).value;
            var line := Line(v.ledger[i].id, Receipts(v.ledger[i])[k]);
            exists n :: 0 <= n < |v.log| && v.log[n] == line
                        && forall m :: 0 <= m < |v.log| && EventId(v.log[m]) == EventId(line) ==> m == n
  {
    RunStaysDurable(w, moves);
    var v := Run(w, moves).value;
    assert ProjectionOk(v, v.projections[pid]);
    var line := Line(v.ledger[i].id, Receipts(v.ledger[i])[k]);
    var n :| 0 <= n < |v.log| && v.log[n] == line;
  }
}
