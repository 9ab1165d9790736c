/**
 The file lock of one JSON state target. A lock file is published with an exclusive link; a release publishes a
 transition file, renames the lock file away, checks whose it was, and removes both. Every process that locks the
 target carries its own owner token; any of them may fail or crash at any step, and files it left stay behind.
 */
module TargetLock {
  import opened Basics

  type Token = nat

  /** How far a process has come. */
  datatype Pc =
    | Trying                    // about to look for a transition file
    | Publishing                // saw none: about to link the lock file
    | Inside                    // acquired, target not read yet
    | HasRead(content: string)  // about to write the target
    | Leaving                   // operation over: about to read the lock file
    | Owned                     // the lock file named it: about to publish the transition
    | Moving                    // about to rename the lock file away
    | Checking                  // about to read the file it moved
    | Restoring                 // the moved file did not name it
    | Removing                  // about to remove the moved file
    | Clearing(ok: bool)        // about to remove the transition file
    | Finished(ok: bool)
    | Crashed

  /** The files, by whose token they hold, and the processes. `log` records the committed writers in order. */
  datatype World = World(
    lock: Option<Token>,
    transition: Option<Token>,
    moved: map<Token, Token>,
    target: string,
    pc: map<Token, Pc>,
    log: seq<Token>)

  datatype Step =
    | Start(t: Token) | SeeNoTransition(t: Token) | GiveUp(t: Token) | Contend(t: Token)
    | PublishLock(t: Token, cleanedUp: bool)
    | Read(t: Token) | Write(t: Token) | OperationFails(t: Token)
    | ReadLock(t: Token, readable: bool)
    | PublishTransition(t: Token, cleanedUp: bool) | TransitionRefused(t: Token)
    | MoveLock(t: Token) | MoveFails(t: Token)
    | CheckMoved(t: Token, readable: bool) | CheckFails(t: Token)
    | Restore(t: Token) | RestoreFails(t: Token)
    | RemoveMoved(t: Token) | RemoveMovedFails(t: Token)
    | RemoveTransition(t: Token) | RemoveTransitionFails(t: Token)
    | Crash(t: Token)

  /** What each writer computes from the content it read. */
  type Updaters = (Token, string) -> string

  predicate At(w: World, t: Token, pc: Pc) {
    t in w.pc && w.pc[t] == pc
  }

  function Goes(w: World, t: Token, pc: Pc): World {
    w.(pc := w.pc[t := pc])
  }

  /** The files and the process after an enabled step; None when the step is not enabled. */
  function Next(f: Updaters, w: World, step: Step): Option<World> {
    var t := step.t;
    match step
    case Start(_) => if t !in w.pc then Some(Goes(w, t, Trying)) else None
    case SeeNoTransition(_) => if At(w, t, Trying) && w.transition.None? then Some(Goes(w, t, Publishing)) else None
    case GiveUp(_) => if At(w, t, Trying) then Some(Goes(w, t, Finished(false))) else None
    case Contend(_) => if At(w, t, Publishing) then Some(Goes(w, t, Trying)) else None
    case PublishLock(_, cleanedUp) =>
      if At(w, t, Publishing) && w.lock.None?
      then Some(Goes(w.(lock := Some(t)), t, if cleanedUp then Inside else Finished(false))) else None
    case Read(_) => if At(w, t, Inside) then Some(Goes(w, t, HasRead(w.target))) else None
    case Write(_) =>
      if t in w.pc && w.pc[t].HasRead?
      then Some(Goes(w.(target := f(t, w.pc[t].content), log := w.log + [t]), t, Leaving)) else None
    case OperationFails(_) =>
      if At(w, t, Inside) || (t in w.pc && w.pc[t].HasRead?) then Some(Goes(w, t, Leaving)) else None
    case ReadLock(_, readable) =>
      if At(w, t, Leaving)
      then Some(Goes(w, t, if readable && w.lock == Some(t) then Owned else Finished(false))) else None
    case PublishTransition(_, cleanedUp) =>
      if At(w, t, Owned) && w.transition.None?
      then Some(Goes(w.(transition := Some(t)), t, if cleanedUp then Moving else Finished(false))) else None
    case TransitionRefused(_) => if At(w, t, Owned) then Some(Goes(w, t, Finished(false))) else None
    case MoveLock(_) =>
      if At(w, t, Moving) && w.lock.Some?
      then Some(Goes(w.(lock := None, moved := w.moved[t := w.lock.value]), t, Checking)) else None
    case MoveFails(_) => if At(w, t, Moving) then Some(Goes(w, t, Clearing(false))) else None
    case CheckMoved(_, readable) =>
      if At(w, t, Checking) && t in w.moved
      then Some(Goes(w, t, if readable && w.moved[t] == t then Removing else Restoring)) else None
    case CheckFails(_) => if At(w, t, Checking) then Some(Goes(w, t, Clearing(false))) else None
    case Restore(_) =>
      if At(w, t, Restoring) && t in w.moved
      then Some(Goes(w.(lock := Some(w.moved[t]), moved := w.moved - {t}), t, Clearing(false))) else None
    case RestoreFails(_) => if At(w, t, Restoring) then Some(Goes(w, t, Clearing(false))) else None
    case RemoveMoved(_) =>
      if At(w, t, Removing) then Some(Goes(w.(moved := w.moved - {t}), t, Clearing(true))) else None
    case RemoveMovedFails(_) => if At(w, t, Removing) then Some(Goes(w, t, Clearing(false))) else None
    case RemoveTransition(_) =>
      if t in w.pc && w.pc[t].Clearing?
      then Some(Goes(w.(transition := None), t, Finished(w.pc[t].ok))) else None
    case RemoveTransitionFails(_) => if t in w.pc && w.pc[t].Clearing? then Some(Goes(w, t, Finished(false))) else None
    case Crash(_) => if t in w.pc then Some(Goes(w, t, Crashed)) else None
  }

  function Initial(content: string): World {
    World(None, None, map[], content, map[], [])
  }

  function Run(f: Updaters, content: string, steps: seq<Step>): Option<World> {
    if steps == [] then Some(Initial(content))
    else match Run(f, content, steps[..|steps| - 1])
      case None => None
      case Some(w) => Next(f, w, steps[|steps| - 1])
  }

  // ---------------------------------------------------------------- the course of one process

  /** Where process `t` can go next, and what it must find there. */
  predicate CanGo(w: World, t: Token, to: Pc) {
    if t !in w.pc then to == Trying
    else match to
      case Trying => w.pc[t] == Publishing
      case Publishing => w.pc[t] == Trying && w.transition.None?
      case Inside => w.pc[t] == Publishing && w.lock.None?
      case HasRead(content) => w.pc[t] == Inside && content == w.target
      case Leaving => w.pc[t] == Inside || w.pc[t].HasRead?
      case Owned => w.pc[t] == Leaving && w.lock == Some(t)
      case Moving => w.pc[t] == Owned && w.transition.None?
      case Checking => w.pc[t] == Moving && w.lock.Some?
      case Removing => w.pc[t] == Checking && t in w.moved && w.moved[t] == t
      case Restoring => w.pc[t] == Checking && t in w.moved
      case Clearing(ok) =>
        if ok then w.pc[t] == Removing
        else w.pc[t] == Moving || w.pc[t] == Checking || w.pc[t] == Removing || w.pc[t] == Restoring
      case Finished(ok) =>
        if ok then w.pc[t] == Clearing(true)
        else
          || w.pc[t] == Trying || (w.pc[t] == Publishing && w.lock.None?) || w.pc[t] == Leaving || w.pc[t] == Owned
          || w.pc[t].Clearing?
      case Crashed => true
  }

  /** The step takes process `t` to `to`. */
  predicate Takes(f: Updaters, w: World, step: Step, t: Token, to: Pc) {
    step.t == t && Next(f, w, step).Some? && At(Next(f, w, step).value, t, to)
  }

  lemma StepGoesWhereItCan(f: Updaters, w: World, step: Step)
    requires Next(f, w, step).Some?
    ensures var v := Next(f, w, step).value;
            step.t in v.pc && CanGo(w, step.t, v.pc[step.t]) && v.pc == w.pc[step.t := v.pc[step.t]]
  {
  }

  /** A step that takes process `t` where it can go. */
  function StepTo(w: World, t: Token, to: Pc): Step
    requires CanGo(w, t, to)
  {
    if t !in w.pc then Start(t)
    else match to
      case Trying => Contend(t)
      case Publishing => SeeNoTransition(t)
      case Inside => PublishLock(t, true)
      case HasRead(_) => Read(t)
      case Leaving => OperationFails(t)
      case Owned => ReadLock(t, true)
      case Moving => PublishTransition(t, true)
      case Checking => MoveLock(t)
      case Removing => CheckMoved(t, true)
      case Restoring => CheckMoved(t, false)
      case Clearing(ok) =>
        if ok then RemoveMoved(t)
        else if w.pc[t] == Moving then MoveFails(t)
        else if w.pc[t] == Checking then CheckFails(t)
        else if w.pc[t] == Removing then RemoveMovedFails(t)
        else RestoreFails(t)
      case Finished(ok) =>
        if ok then RemoveTransition(t)
        else if w.pc[t] == Trying then GiveUp(t)
        else if w.pc[t] == Publishing then PublishLock(t, false)
        else if w.pc[t] == Leaving then ReadLock(t, false)
        else if w.pc[t] == Owned then TransitionRefused(t)
        else RemoveTransitionFails(t)
      case Crashed => Crash(t)
  }

  /** A process can go exactly where the program leads from what it finds, failures and crashes included. */
  lemma CourseIsExact(f: Updaters, w: World, t: Token, to: Pc)
    ensures (exists step :: Takes(f, w, step, t, to)) <==> CanGo(w, t, to)
  {
    if CanGo(w, t, to) {
      assert Takes(f, w, StepTo(w, t, to), t, to);
    }
    forall step | Takes(f, w, step, t, to)
      ensures CanGo(w, t, to)
    {
      StepGoesWhereItCan(f, w, step);
    }
  }

  // ---------------------------------------------------------------- what every run keeps

  predicate InOperation(pc: Pc) {
    pc.Inside? || pc.HasRead?
  }

  /** From acquiring the lock until it is renamed away. */
  predicate Locked(pc: Pc) {
    InOperation(pc) || pc.Leaving? || pc.Owned? || pc.Moving?
  }

  predicate InTransition(pc: Pc) {
    pc.Moving? || pc.Checking? || pc.Restoring? || pc.Removing? || pc.Clearing?
  }

  /** The updaters of the log applied one after the other. */
  function Serial(f: Updaters, content: string, log: seq<Token>): string {
    if log == [] then content else f(log[|log| - 1], Serial(f, content, log[..|log| - 1]))
  }

  predicate LockPresent(w: World) {
    forall t :: t in w.pc && Locked(w.pc[t]) ==> w.lock.Some?
  }

  predicate OneLocked(w: World) {
    forall t, u :: t in w.pc && u in w.pc && Locked(w.pc[t]) && Locked(w.pc[u]) ==> t == u
  }

  predicate AtMostOneLocked(w: World) {
    LockPresent(w) && OneLocked(w)
  }

  predicate TransitionIsOwn(w: World) {
    forall t :: t in w.pc && InTransition(w.pc[t]) ==> w.transition == Some(t)
  }

  predicate ReadIsCurrent(w: World) {
    forall t :: t in w.pc && w.pc[t].HasRead? ==> w.pc[t].content == w.target
  }

  predicate Safe(f: Updaters, content: string, w: World) {
    && AtMostOneLocked(w)
    && TransitionIsOwn(w)
    && ReadIsCurrent(w)
    && w.target == Serial(f, content, w.log)
  }

  lemma StepKeepsLock(f: Updaters, w: World, step: Step)
    requires AtMostOneLocked(w) && Next(f, w, step).Some?
    ensures LockPresent(Next(f, w, step).value)
  {
  }

  /** Only a process that finds no lock file becomes locked. */
  lemma StepLocksWhenFree(f: Updaters, w: World, step: Step, t: Token)
    requires Next(f, w, step).Some?
    requires t in Next(f, w, step).value.pc && Locked(Next(f, w, step).value.pc[t])
    ensures t in w.pc && (Locked(w.pc[t]) || (t == step.t && w.lock.None?))
  {
  }

  lemma StepKeepsExclusion(f: Updaters, w: World, step: Step)
    requires AtMostOneLocked(w) && Next(f, w, step).Some?
    ensures AtMostOneLocked(Next(f, w, step).value)
  {
    StepKeepsLock(f, w, step);
    var v := Next(f, w, step).value;
    forall t, u | t in v.pc && u in v.pc && Locked(v.pc[t]) && Locked(v.pc[u])
      ensures t == u
    {
      StepLocksWhenFree(f, w, step, t);
      StepLocksWhenFree(f, w, step, u);
    }
  }

  lemma StepKeepsTransition(f: Updaters, w: World, step: Step)
    requires TransitionIsOwn(w) && Next(f, w, step).Some?
    ensures TransitionIsOwn(Next(f, w, step).value)
  {
  }

  lemma StepKeepsReads(f: Updaters, w: World, step: Step)
    requires AtMostOneLocked(w) && ReadIsCurrent(w) && Next(f, w, step).Some?
    ensures ReadIsCurrent(Next(f, w, step).value)
  {
  }

  lemma StepKeepsSerial(f: Updaters, content: string, w: World, step: Step)
    requires ReadIsCurrent(w) && w.target == Serial(f, content, w.log) && Next(f, w, step).Some?
    ensures Next(f, w, step).value.target == Serial(f, content, Next(f, w, step).value.log)
  {
    assert (w.log + [step.t])[..|w.log|] == w.log;
  }

  /**
   In every interleaving: at most one process is inside the operation, and the content is the committed updaters
   applied one after the other, so no update is lost.
   */
  lemma {:induction false} RunIsSafe(f: Updaters, content: string, steps: seq<Step>)
    requires Run(f, content, steps).Some?
    ensures Safe(f, content, Run(f, content, steps).value)
  {
    if steps != [] {
      var before, step := steps[..|steps| - 1], steps[|steps| - 1];
      RunIsSafe(f, content, before);
      var w := Run(f, content, before).value;
      StepKeepsExclusion(f, w, step);
      StepKeepsTransition(f, w, step);
      StepKeepsReads(f, w, step);
      StepKeepsSerial(f, content, w, step);
    }
  }

  /** A transition file is taken away only by the process that published it. */
  lemma TransitionRemovedByPublisher(f: Updaters, content: string, steps: seq<Step>, step: Step)
    requires Run(f, content, steps + [step]).Some?
    ensures Run(f, content, steps).Some?
    ensures var w := Run(f, content, steps).value;
            var v := Run(f, content, steps + [step]).value;
            w.transition.Some? && v.transition != w.transition ==> w.transition == Some(step.t) && v.transition == None
  {
    assert (steps + [step])[..|steps|] == steps;
    RunIsSafe(f, content, steps);
  }

  // ---------------------------------------------------------------- whose lock it is

  predicate LockIsOwn(w: World) {
    forall t :: t in w.pc && Locked(w.pc[t]) ==> w.lock == Some(t)
  }

  predicate MovedIsOwn(w: World) {
    forall t :: t in w.pc && (w.pc[t].Checking? || w.pc[t].Removing? || w.pc[t].Restoring?) ==>
        t in w.moved && w.moved[t] == t
  }

  /** The lock file names the process that holds it, and a moved file the process that moved it. */
  predicate Named(w: World) {
    LockIsOwn(w) && MovedIsOwn(w)
  }

  predicate NeverRestores(w: World) {
    forall t :: t in w.pc ==> !w.pc[t].Restoring?
  }

  /** Reading the file it just moved fails for this step with a transient error. */
  predicate UnreadableMove(step: Step) {
    step.CheckMoved? && !step.readable
  }

  predicate Held(w: World) {
    exists t :: t in w.pc && Locked(w.pc[t])
  }

  /** This step puts a moved file back over the lock of a process that holds it. */
  predicate RestoresOver(w: World, step: Step) {
    step.Restore? && Held(w)
  }

  lemma StepKeepsLockOwn(f: Updaters, w: World, step: Step)
    requires AtMostOneLocked(w) && LockIsOwn(w) && Next(f, w, step).Some? && !RestoresOver(w, step)
    ensures LockIsOwn(Next(f, w, step).value)
  {
    var v := Next(f, w, step).value;
    forall t | t in v.pc && Locked(v.pc[t])
      ensures v.lock == Some(t)
    {
      StepLocksWhenFree(f, w, step, t);
    }
  }

  lemma StepKeepsMovedOwn(f: Updaters, w: World, step: Step)
    requires LockIsOwn(w) && MovedIsOwn(w) && Next(f, w, step).Some?
    ensures MovedIsOwn(Next(f, w, step).value)
  {
    var v := Next(f, w, step).value;
    forall t | t in v.pc && (v.pc[t].Checking? || v.pc[t].Removing? || v.pc[t].Restoring?)
      ensures t in v.moved && v.moved[t] == t
    {
      if t != step.t {
        assert v.pc[t] == w.pc[t];
      }
    }
  }

  lemma StepNeverRestores(f: Updaters, w: World, step: Step)
    requires MovedIsOwn(w) && NeverRestores(w) && Next(f, w, step).Some? && !UnreadableMove(step)
    ensures NeverRestores(Next(f, w, step).value)
  {
  }

  /** Putting a moved file back keeps the lock named exactly while no process holds the lock. */
  lemma RestoreIsHarmlessWhenFree(f: Updaters, w: World, t: Token)
    requires Named(w) && At(w, t, Restoring)
    ensures Next(f, w, Restore(t)).Some?
    ensures Named(Next(f, w, Restore(t)).value) <==> !Held(w)
    ensures LockIsOwn(Next(f, w, Restore(t)).value) <==> !Held(w)
  {
    var v := Next(f, w, Restore(t)).value;
    if Held(w) {
      var u :| u in w.pc && Locked(w.pc[u]);
      assert u in v.pc && v.lock == Some(t);
    }
    assert forall u :: u in v.pc ==> u in w.pc;
  }

  // ---------------------------------------------------------------- over whole runs

  lemma {:induction false} RunPrefix(f: Updaters, content: string, steps: seq<Step>, n: nat)
    requires Run(f, content, steps).Some? && n <= |steps|
    ensures Run(f, content, steps[..n]).Some?
    decreases |steps|
  {
    if n < |steps| {
      assert steps[..|steps| - 1][..n] == steps[..n];
      RunPrefix(f, content, steps[..|steps| - 1], n);
    } else {
      assert steps[..n] == steps;
    }
  }

  /** The world after the first `n` steps of a run. */
  function Then(f: Updaters, content: string, steps: seq<Step>, n: nat): World
    requires Run(f, content, steps).Some? && n <= |steps|
  {
    RunPrefix(f, content, steps, n);
    Run(f, content, steps[..n]).value
  }

  lemma ThenSteps(f: Updaters, content: string, steps: seq<Step>, n: nat)
    requires Run(f, content, steps).Some? && n < |steps|
    ensures Next(f, Then(f, content, steps, n), steps[n]) == Some(Then(f, content, steps, n + 1))
    ensures AtMostOneLocked(Then(f, content, steps, n))
  {
    RunPrefix(f, content, steps, n);
    RunPrefix(f, content, steps, n + 1);
    RunIsSafe(f, content, steps[..n]);
    assert steps[..n + 1][..n] == steps[..n];
  }

  ghost predicate EveryMoveReadable(steps: seq<Step>, n: nat) {
    forall k :: 0 <= k < n && k < |steps| ==> !UnreadableMove(steps[k])
  }

  lemma {:induction false} ReadableNeverRestores(f: Updaters, content: string, steps: seq<Step>, n: nat)
    requires Run(f, content, steps).Some? && n <= |steps| && EveryMoveReadable(steps, n)
    ensures Named(Then(f, content, steps, n)) && NeverRestores(Then(f, content, steps, n))
  {
    if n > 0 {
      ReadableNeverRestores(f, content, steps, n - 1);
      ThenSteps(f, content, steps, n - 1);
      var w, step := Then(f, content, steps, n - 1), steps[n - 1];
      StepKeepsLockOwn(f, w, step);
      StepKeepsMovedOwn(f, w, step);
      StepNeverRestores(f, w, step);
    }
  }

  /** The restore branch is reached in a run exactly when some process could not read the file it moved. */
  lemma RestoringExactlyWhenUnreadable(f: Updaters, content: string, steps: seq<Step>)
    requires Run(f, content, steps).Some?
    ensures (forall n :: 0 <= n <= |steps| ==> NeverRestores(Then(f, content, steps, n)))
            <==> EveryMoveReadable(steps, |steps|)
  {
    if EveryMoveReadable(steps, |steps|) {
      forall n | 0 <= n <= |steps|
        ensures NeverRestores(Then(f, content, steps, n))
      {
        ReadableNeverRestores(f, content, steps, n);
      }
    } else {
      var k :| 0 <= k < |steps| && UnreadableMove(steps[k]);
      ThenSteps(f, content, steps, k);
      assert At(Then(f, content, steps, k + 1), steps[k].t, Restoring);
      assert !NeverRestores(Then(f, content, steps, k + 1));
    }
  }

  /** No step among the first `n` restores over a held lock. */
  ghost predicate NoneRestoresOver(f: Updaters, content: string, steps: seq<Step>, n: nat)
    requires Run(f, content, steps).Some? && n <= |steps|
  {
    forall k :: 0 <= k < n ==> !RestoresOver(Then(f, content, steps, k), steps[k])
  }

  lemma {:induction false} NamedUntilRestoredOver(f: Updaters, content: string, steps: seq<Step>, n: nat)
    requires Run(f, content, steps).Some? && n <= |steps| && NoneRestoresOver(f, content, steps, n)
    ensures Named(Then(f, content, steps, n))
  {
    if n > 0 {
      NamedUntilRestoredOver(f, content, steps, n - 1);
      ThenSteps(f, content, steps, n - 1);
      assert !RestoresOver(Then(f, content, steps, n - 1), steps[n - 1]);
      StepKeepsLockOwn(f, Then(f, content, steps, n - 1), steps[n - 1]);
      StepKeepsMovedOwn(f, Then(f, content, steps, n - 1), steps[n - 1]);
    }
  }

  /** The first restore over a held lock takes the lock file away from the process that holds it. */
  lemma {:induction false} RestoredOverLosesName(f: Updaters, content: string, steps: seq<Step>, k: nat)
    requires Run(f, content, steps).Some? && k < |steps| && RestoresOver(Then(f, content, steps, k), steps[k])
    ensures exists n :: 0 <= n <= |steps| && !LockIsOwn(Then(f, content, steps, n))
    decreases k
  {
    if NoneRestoresOver(f, content, steps, k) {
      NamedUntilRestoredOver(f, content, steps, k);
      ThenSteps(f, content, steps, k);
      RestoreIsHarmlessWhenFree(f, Then(f, content, steps, k), steps[k].t);
      assert !LockIsOwn(Then(f, content, steps, k + 1));
    } else {
      var earlier :| 0 <= earlier < k && RestoresOver(Then(f, content, steps, earlier), steps[earlier]);
      RestoredOverLosesName(f, content, steps, earlier);
    }
  }

  /**
   The lock file names the process that holds it throughout a run exactly when no moved file is ever put back
   while a process holds the lock.
   */
  lemma LockNamesHolder(f: Updaters, content: string, steps: seq<Step>)
    requires Run(f, content, steps).Some?
    ensures (forall n :: 0 <= n <= |steps| ==> LockIsOwn(Then(f, content, steps, n)))
            <==> NoneRestoresOver(f, content, steps, |steps|)
  {
    if NoneRestoresOver(f, content, steps, |steps|) {
      forall n | 0 <= n <= |steps|
        ensures LockIsOwn(Then(f, content, steps, n))
      {
        NamedUntilRestoredOver(f, content, steps, n);
      }
    } else {
      var k :| 0 <= k < |steps| && RestoresOver(Then(f, content, steps, k), steps[k]);
      RestoredOverLosesName(f, content, steps, k);
    }
  }

  /** While every move is readable the lock is named, and a release finds its own lock. */
  lemma OwnLockIsFound(f: Updaters, content: string, steps: seq<Step>, t: Token)
    requires Run(f, content, steps).Some? && EveryMoveReadable(steps, |steps|)
    requires At(Run(f, content, steps).value, t, Leaving)
    ensures Named(Run(f, content, steps).value)
    ensures Next(f, Run(f, content, steps).value, ReadLock(t, true))
            == Some(Goes(Run(f, content, steps).value, t, Owned))
  {
    ReadableNeverRestores(f, content, steps, |steps|);
    assert steps[..|steps|] == steps;
  }

  ghost predicate Reachable(f: Updaters, content: string, w: World) {
    exists steps :: Run(f, content, steps) == Some(w)
  }

  lemma RunAppends(f: Updaters, content: string, steps: seq<Step>, step: Step)
    requires Run(f, content, steps).Some?
    ensures Run(f, content, steps + [step]) == Next(f, Run(f, content, steps).value, step)
  {
    var longer := steps + [step];
    assert longer[..|longer| - 1] == steps && longer[|longer| - 1] == step;
  }

  lemma Reach(f: Updaters, content: string, w: World, step: Step) returns (v: World)
    requires Reachable(f, content, w) && Next(f, w, step).Some?
    ensures Reachable(f, content, v) && Next(f, w, step) == Some(v)
  {
    var steps :| Run(f, content, steps) == Some(w);
    RunAppends(f, content, steps, step);
    v := Next(f, w, step).value;
    assert Run(f, content, steps + [step]) == Some(v);
  }

  // ---- the lock can be had, and is given back

  lemma CanEnter(f: Updaters, content: string, w: World, t: Token) returns (v: World)
    requires Reachable(f, content, w) && w.lock.None? && w.transition.None? && t !in w.pc
    ensures Reachable(f, content, v) && t in v.pc
    ensures v == w.(lock := Some(t), pc := w.pc[t := Inside])
  {
    v := Reach(f, content, w, Start(t));
    v := Reach(f, content, v, SeeNoTransition(t));
    v := Reach(f, content, v, PublishLock(t, true));
    assert v.pc == w.pc[t := Inside];
  }

  lemma CanUpdate(f: Updaters, content: string, w: World, t: Token) returns (v: World)
    requires Reachable(f, content, w) && At(w, t, Inside) && w.lock == Some(t) && w.transition.None?
    ensures Reachable(f, content, v)
    ensures v == w.(target := f(t, w.target), log := w.log + [t], pc := w.pc[t := Owned])
  {
    v := Reach(f, content, w, Read(t));
    v := Reach(f, content, v, Write(t));
    v := Reach(f, content, v, ReadLock(t, true));
    assert v.pc == w.pc[t := Owned];
  }

  lemma CanMoveAway(f: Updaters, content: string, w: World, t: Token) returns (v: World)
    requires Reachable(f, content, w) && At(w, t, Owned) && w.lock == Some(t) && w.transition.None?
    ensures Reachable(f, content, v)
    ensures v == w.(lock := None, transition := Some(t), moved := w.moved[t := t], pc := w.pc[t := Removing])
  {
    v := Reach(f, content, w, PublishTransition(t, true));
    v := Reach(f, content, v, MoveLock(t));
    v := Reach(f, content, v, CheckMoved(t, true));
    assert v.pc == w.pc[t := Removing];
  }

  lemma CanClear(f: Updaters, content: string, w: World, t: Token) returns (v: World)
    requires Reachable(f, content, w) && At(w, t, Removing)
    ensures Reachable(f, content, v)
    ensures v == w.(transition := None, moved := w.moved - {t}, pc := w.pc[t := Finished(true)])
  {
    v := Reach(f, content, w, RemoveMoved(t));
    v := Reach(f, content, v, RemoveTransition(t));
    assert v.pc == w.pc[t := Finished(true)];
  }

  /**
   From every reachable state in which lock and transition are free, a newcomer can take the lock, commit its update
   to the content it finds there, and leave lock and transition free again, with nothing of its own behind.
   */
  lemma FreeLockCanBeUsed(f: Updaters, content: string, w: World, t: Token) returns (v: World)
    requires Reachable(f, content, w) && w.lock.None? && w.transition.None? && t !in w.pc
    ensures Reachable(f, content, v) && v.lock.None? && v.transition.None?
    ensures v.target == f(t, w.target) && v.log == w.log + [t]
    ensures v.pc == w.pc[t := Finished(true)] && v.moved == w.moved - {t}
  {
    v := CanEnter(f, content, w, t);
    v := CanUpdate(f, content, v, t);
    v := CanMoveAway(f, content, v, t);
    v := CanClear(f, content, v, t);
    assert v.pc == w.pc[t := Finished(true)];
  }

  lemma FirstInside(f: Updaters) returns (w: World)
    ensures Reachable(f, "", w) && At(w, 1, Inside) && 2 !in w.pc && w.lock == Some(1) && w.transition == None
  {
    assert Run(f, "", []) == Some(Initial(""));
    w := Reach(f, "", Initial(""), Start(1));
    w := Reach(f, "", w, SeeNoTransition(1));
    w := Reach(f, "", w, PublishLock(1, true));
  }

  /** Process 1 can hold the lock while process 2, having seen no transition, is about to publish its own. */
  lemma Contended(f: Updaters) returns (w: World)
    ensures Reachable(f, "", w) && At(w, 1, Inside) && At(w, 2, Publishing) && w.lock == Some(1) && w.transition == None
  {
    w := FirstInside(f);
    w := Reach(f, "", w, Start(2));
    w := Reach(f, "", w, SeeNoTransition(2));
  }

  lemma AboutToRelease(f: Updaters) returns (w: World)
    ensures Reachable(f, "", w) && At(w, 1, Owned) && At(w, 2, Publishing) && w.lock == Some(1) && w.transition == None
  {
    w := Contended(f);
    w := Reach(f, "", w, OperationFails(1));
    w := Reach(f, "", w, ReadLock(1, true));
  }

  /** Process 1 can then move its lock file away. */
  lemma MovedAway(f: Updaters) returns (w: World)
    ensures Reachable(f, "", w) && At(w, 1, Checking) && At(w, 2, Publishing)
    ensures w.lock == None && 1 in w.moved && w.moved[1] == 1
  {
    w := AboutToRelease(f);
    w := Reach(f, "", w, PublishTransition(1, true));
    w := Reach(f, "", w, MoveLock(1));
  }

  /** Process 2 can take the free lock while process 1 is about to put the moved file back. */
  lemma TakenMeanwhile(f: Updaters) returns (w: World)
    ensures Reachable(f, "", w) && At(w, 1, Restoring) && At(w, 2, Inside) && 1 in w.moved && w.moved[1] == 1
  {
    w := MovedAway(f);
    w := Reach(f, "", w, PublishLock(2, true));
    w := Reach(f, "", w, CheckMoved(1, false));
  }

  /**
   One unreadable move is enough: process 2 takes the free lock, process 1 cannot read what it moved and puts it
   back, and the lock file names process 1 while process 2 is inside the operation.
   */
  lemma UnreadableMoveCanOverwriteALock(f: Updaters)
    ensures exists w :: Reachable(f, "", w) && At(w, 2, Inside) && w.lock == Some(1)
  {
    var w := TakenMeanwhile(f);
    w := Reach(f, "", w, Restore(1));
    assert At(w, 2, Inside) && w.lock == Some(1);
  }
}
