/**
 Skill distribution to several targets: recovery of interrupted runs, staging beside every target, promotion by
 renames with a backup of the old tree, rollback in reverse order, and cleanup. A tree is its files; the disk maps
 each target, stage and backup path to the tree it holds. Renames are atomic and may fail; staging and removal may
 fail half-way. The trace records the disk at the start, after every primitive step, and in the middle of the ones that
 are not atomic: these are the states a crash can leave behind.
 */
module Distribution {
  import opened Basics

  type Tree = map<string, string>
  datatype Path = Target(i: nat) | Stage(i: nat, txn: nat) | Backup(i: nat, txn: nat)
  type Entries = map<Path, Tree>

  const LEGACY_BROWSER_FILES: set<string> := {
    "assets/dashboard/app.js", "assets/dashboard/index.html", "assets/dashboard/styles.css",
    "assets/dashboard/vendor/dagre.min.js", "assets/dashboard/vendor/dagre.min.js.LEGAL.txt", "dashboard-server.js",
    "scripts/dashboard-dom-smoke.js", "scripts/dashboard-port-selection.js", "scripts/dashboard-port-selection.test.js",
    "scripts/dashboard-report-review.test.js", "scripts/dashboard-state-cache.js",
    "scripts/dashboard-state-cache.test.js"}

  /** `compareSourceToTarget` finds no difference. */
  predicate Matches(snapshot: Tree, t: Tree) {
    t == snapshot && forall f :: f in LEGACY_BROWSER_FILES ==> f !in t
  }

  function Get(m: Entries, p: Path): Option<Tree> {
    if p in m then Some(m[p]) else None
  }

  function Moved(m: Entries, from: Path, to: Path): Entries
    requires from in m
  {
    (m - {from})[to := m[from]]
  }

  ghost predicate SameExcept(a: Entries, b: Entries, p: Path) {
    forall q :: q != p ==> Get(a, q) == Get(b, q)
  }

  // ---------------------------------------------------------------- what may not be lost

  /** The tree is complete at the target or in one of its backups. */
  ghost predicate Present(m: Entries, i: nat, t: Tree) {
    Get(m, Target(i)) == Some(t) || exists txn :: Get(m, Backup(i, txn)) == Some(t)
  }

  /** The tree is not lost: it is there, or the complete snapshot is. */
  ghost predicate Held(snapshot: Tree, m: Entries, i: nat, t: Tree) {
    Present(m, i, t) || (Matches(snapshot, snapshot) && Present(m, i, snapshot))
  }

  /** Nothing that was at a target or in a backup is lost. */
  ghost predicate Keeps(snapshot: Tree, before: Entries, after: Entries) {
    forall i, t :: Present(before, i, t) ==> Held(snapshot, after, i, t)
  }

  /** One step loses no tree, unless it leaves the complete snapshot at the tree's target. */
  ghost predicate Preserves(snapshot: Tree, a: Entries, b: Entries) {
    forall i, t :: Present(a, i, t) ==> Present(b, i, t) || Delivered(snapshot, b, i)
  }

  ghost predicate Delivered(snapshot: Tree, m: Entries, i: nat) {
    Get(m, Target(i)) == Some(snapshot) && Matches(snapshot, snapshot)
  }

  /** As `Preserves`, except that the snapshot itself may be taken off again. */
  ghost predicate StepKeeps(snapshot: Tree, a: Entries, b: Entries) {
    forall i, t :: Present(a, i, t) ==> Present(b, i, t) || Delivered(snapshot, b, i) || t == snapshot
  }

  /**
   From state `from` of the trace on, no state has lost anything that was there before, and each step discards an old
   tree only while the complete snapshot is at its target.
   */
  ghost predicate KeptTrace(snapshot: Tree, before: Entries, trace: seq<Entries>, from: nat) {
    && from < |trace|
    && (forall k :: from <= k < |trace| ==> Keeps(snapshot, before, trace[k]))
    && (forall k :: from <= k < |trace| - 1 ==> StepKeeps(snapshot, trace[k], trace[k + 1]))
  }

  lemma TraceGrows(snapshot: Tree, before: Entries, trace: seq<Entries>, from: nat, b: Entries)
    requires KeptTrace(snapshot, before, trace, from) && Keeps(snapshot, before, b)
    requires StepKeeps(snapshot, trace[|trace| - 1], b)
    ensures KeptTrace(snapshot, before, trace + [b], from)
  {
    var longer := trace + [b];
    forall k | from <= k < |longer|
      ensures Keeps(snapshot, before, longer[k])
    {
      assert k < |trace| ==> longer[k] == trace[k];
    }
    forall k | from <= k < |longer| - 1
      ensures StepKeeps(snapshot, longer[k], longer[k + 1])
    {
      assert longer[k] == trace[k] && (k + 1 < |trace| ==> longer[k + 1] == trace[k + 1]);
    }
  }

  lemma PreservesKeeps(snapshot: Tree, before: Entries, a: Entries, b: Entries)
    requires Keeps(snapshot, before, a) && Preserves(snapshot, a, b)
    ensures Keeps(snapshot, before, b)
  {
    forall i, t | Present(before, i, t)
      ensures Held(snapshot, b, i, t)
    {
      var x := if Present(a, i, t) then t else snapshot;
      assert Present(a, i, x);
    }
  }

  /** A step that preserves extends a kept trace. */
  lemma PreservingStep(snapshot: Tree, before: Entries, trace: seq<Entries>, from: nat, b: Entries)
    requires KeptTrace(snapshot, before, trace, from) && Preserves(snapshot, trace[|trace| - 1], b)
    ensures KeptTrace(snapshot, before, trace + [b], from)
  {
    PreservesKeeps(snapshot, before, trace[|trace| - 1], b);
    TraceGrows(snapshot, before, trace, from, b);
  }

  lemma PreservingSteps(snapshot: Tree, before: Entries, trace: seq<Entries>, from: nat, mid: Entries, b: Entries)
    requires KeptTrace(snapshot, before, trace, from)
    requires Preserves(snapshot, trace[|trace| - 1], mid) && Preserves(snapshot, mid, b)
    ensures KeptTrace(snapshot, before, trace + [mid, b], from)
  {
    PreservingStep(snapshot, before, trace, from, mid);
    PreservingStep(snapshot, before, trace + [mid], from, b);
    assert trace + [mid] + [b] == trace + [mid, b];
  }

  // ---------------------------------------------------------------- the disk

  class Disk {
    var entries: Entries
    var trace: seq<Entries>
    var failures: nat          // steps and comparisons that failed
    var comparisons: nat       // comparisons made, whatever they found

    /** The trace ends in the disk as it is. */
    ghost predicate Valid()
      reads this
    {
      trace != [] && trace[|trace| - 1] == entries
    }

    constructor (entries: Entries)
      ensures this.entries == entries && trace == [entries] && failures == comparisons == 0 && Valid()
    {
      this.entries, trace, failures, comparisons := entries, [entries], 0, 0;
    }

    ghost predicate Kept(snapshot: Tree, before: Entries, from: nat)
      reads this
    {
      Valid() && KeptTrace(snapshot, before, trace, from)
    }

    /** An atomic rename to a free path; it may fail and then changes nothing. */
    method Rename(from: Path, to: Path) returns (ok: bool)
      requires from in entries && to !in entries
      modifies this`entries, this`trace, this`failures
      ensures entries == if ok then Moved(old(entries), from, to) else old(entries)
      ensures trace == old(trace) + [entries] && failures == old(failures) + (if ok then 0 else 1)
    {
      ok := *;
      if ok {
        entries := Moved(entries, from, to);
      } else {
        failures := failures + 1;
      }
      trace := trace + [entries];
    }

    /** Removing a tree file by file; a failure leaves part of it. */
    method Remove(p: Path) returns (ok: bool, ghost mid: Entries)
      requires p in entries
      modifies this`entries, this`trace, this`failures
      ensures ok ==> entries == old(entries) - {p}
      ensures SameExcept(entries, old(entries), p) && SameExcept(mid, old(entries), p)
      ensures trace == old(trace) + [mid, entries] && failures == old(failures) + (if ok then 0 else 1)
    {
      var remains: Tree := *;
      entries := entries[p := remains];
      mid := entries;
      trace := trace + [entries];
      ok := *;
      if ok {
        entries := entries - {p};
      } else {
        failures := failures + 1;
      }
      trace := trace + [entries];
    }

    /** Copying the snapshot to a stage; a failure leaves part of a tree. */
    method CopyTo(p: Path, snapshot: Tree) returns (ok: bool, ghost mid: Entries)
      requires p !in entries
      modifies this`entries, this`trace, this`failures
      ensures ok ==> entries == old(entries)[p := snapshot]
      ensures SameExcept(entries, old(entries), p) && SameExcept(mid, old(entries), p)
      ensures trace == old(trace) + [mid, entries] && failures == old(failures) + (if ok then 0 else 1)
    {
      var part: Tree := *;
      entries := entries[p := part];
      mid := entries;
      trace := trace + [entries];
      ok := *;
      if ok {
        entries := entries[p := snapshot];
      } else {
        failures := failures + 1;
      }
      trace := trace + [entries];
    }

    /** A comparison with something others may have changed meanwhile: the canonical source, or a promoted target. */
    method Compare() returns (same: bool)
      modifies this`failures, this`comparisons
      ensures failures == old(failures) + (if same then 0 else 1) && comparisons == old(comparisons) + 1
    {
      same := *;
      comparisons := comparisons + 1;
      if !same {
        failures := failures + 1;
      }
    }
  }

  // ---------------------------------------------------------------- recovery of interrupted runs

  datatype Recovery = Clean | Ambiguous | Failed

  /** No stage or backup of the target is left, of any transaction. */
  ghost predicate NoArtifacts(m: Entries, i: nat) {
    forall txn :: Stage(i, txn) !in m && Backup(i, txn) !in m
  }

  predicate Of(p: Path, i: nat) {
    p.i == i
  }

  ghost predicate OthersSame(a: Entries, b: Entries, i: nat) {
    forall p :: !Of(p, i) ==> Get(a, p) == Get(b, p)
  }

  /** Whatever happens to a stage loses nothing. */
  lemma StagesDoNotMatter(snapshot: Tree, a: Entries, b: Entries, p: Path)
    requires SameExcept(b, a, p) && p.Stage?
    ensures Preserves(snapshot, a, b)
  {
    forall i, t | Present(a, i, t)
      ensures Present(b, i, t)
    {
      if Get(a, Target(i)) != Some(t) {
        var txn :| Get(a, Backup(i, txn)) == Some(t);
        assert Get(b, Backup(i, txn)) == Some(t);
      }
    }
  }

  /** With the complete snapshot at the target, whatever happens to a backup loses nothing. */
  lemma SnapshotCoversBackup(snapshot: Tree, a: Entries, b: Entries, p: Path)
    requires SameExcept(b, a, p) && p.Backup? && Delivered(snapshot, a, p.i)
    ensures Preserves(snapshot, a, b) && Delivered(snapshot, b, p.i)
  {
    forall i, t | Present(a, i, t) && i != p.i
      ensures Present(b, i, t)
    {
      if Get(a, Target(i)) != Some(t) {
        var txn :| Get(a, Backup(i, txn)) == Some(t);
        assert Get(b, Backup(i, txn)) == Some(t);
      }
    }
  }

  /** Moving a tree between its target and a backup, or to its target from a stage, loses nothing. */
  lemma MovePreserves(snapshot: Tree, a: Entries, from: Path, to: Path)
    requires from in a && to !in a && from.i == to.i && !to.Stage?
    ensures Preserves(snapshot, a, Moved(a, from, to))
  {
    var b := Moved(a, from, to);
    forall i, t | Present(a, i, t)
      ensures Present(b, i, t)
    {
      var p := Target(i);
      if Get(a, p) != Some(t) {
        var txn :| Get(a, Backup(i, txn)) == Some(t);
        p := Backup(i, txn);
      }
      assert Get(a, p) == Some(t);
      assert Get(b, if p == from then to else p) == Some(t);
    }
  }

  /** Removes a leftover stage. */
  method RemoveStage(disk: Disk, i: nat, txn: nat, ghost snapshot: Tree, ghost before: Entries, ghost from: nat)
    returns (ok: bool)
    requires disk.Kept(snapshot, before, from)
    modifies disk`entries, disk`trace, disk`failures
    ensures disk.Kept(snapshot, before, from) && old(disk.trace) <= disk.trace
    ensures SameExcept(disk.entries, old(disk.entries), Stage(i, txn))
    ensures ok ==> Stage(i, txn) !in disk.entries
    ensures disk.failures == old(disk.failures) + (if ok then 0 else 1)
  {
    ok := true;
    if Stage(i, txn) in disk.entries {
      ghost var a := disk.entries;
      ghost var mid;
      ok, mid := disk.Remove(Stage(i, txn));
      StagesDoNotMatter(snapshot, a, mid, Stage(i, txn));
      StagesDoNotMatter(snapshot, mid, disk.entries, Stage(i, txn));
      PreservingSteps(snapshot, before, old(disk.trace), from, mid, disk.entries);
    }
  }

  /**
   One leftover backup: with the target gone it is restored; with the complete snapshot at the target it is removed;
   otherwise the run stops and both copies stay.
   */
  method RecoverBackup(disk: Disk, i: nat, txn: nat, snapshot: Tree, ghost before: Entries, ghost from: nat)
    returns (r: Recovery)
    requires Backup(i, txn) in disk.entries && disk.Kept(snapshot, before, from)
    modifies disk`entries, disk`trace, disk`failures
    ensures disk.Kept(snapshot, before, from) && old(disk.trace) <= disk.trace
    ensures Target(i) in old(disk.entries) ==> SameExcept(disk.entries, old(disk.entries), Backup(i, txn))
    ensures r == Ambiguous <==> Target(i) in old(disk.entries) && !Matches(snapshot, old(disk.entries)[Target(i)])
    ensures r == Ambiguous ==> disk.entries == old(disk.entries)
    ensures r == Clean && Target(i) !in old(disk.entries) ==>
              disk.entries == Moved(old(disk.entries), Backup(i, txn), Target(i))
    ensures r == Clean && Target(i) in old(disk.entries) ==> disk.entries == old(disk.entries) - {Backup(i, txn)}
    ensures r == Failed && Target(i) !in old(disk.entries) ==> disk.entries == old(disk.entries)
    ensures OthersSame(old(disk.entries), disk.entries, i)
    ensures disk.failures == old(disk.failures) + (if r == Failed then 1 else 0)
  {
    var ok;
    ghost var a := disk.entries;
    if Target(i) in disk.entries {
      if !Matches(snapshot, disk.entries[Target(i)]) {
        return Ambiguous;
      }
      ghost var mid;
      ok, mid := disk.Remove(Backup(i, txn));
      SnapshotCoversBackup(snapshot, a, mid, Backup(i, txn));
      SnapshotCoversBackup(snapshot, mid, disk.entries, Backup(i, txn));
      PreservingSteps(snapshot, before, old(disk.trace), from, mid, disk.entries);
    } else {
      ok := disk.Rename(Backup(i, txn), Target(i));
      MovePreserves(snapshot, a, Backup(i, txn), Target(i));
      PreservingStep(snapshot, before, old(disk.trace), from, disk.entries);
    }
    r := if ok then Clean else Failed;
  }

  /** The backups of target `i` that are still as they were, and those that are gone. */
  ghost predicate Pending(start: Entries, m: Entries, i: nat, rest: set<nat>) {
    && (forall txn :: txn in rest ==> Backup(i, txn) in start && Get(m, Backup(i, txn)) == Get(start, Backup(i, txn)))
    && (forall txn :: txn !in rest ==> Get(m, Backup(i, txn)) == None)
  }

  /** Where the target stands while its backups are recovered. */
  ghost predicate TargetRecovered(start: Entries, m: Entries, i: nat, rest: set<nat>) {
    if Target(i) in start then Get(m, Target(i)) == Get(start, Target(i))
    else if forall txn :: Backup(i, txn) in start ==> txn in rest then Get(m, Target(i)) == None
    else exists txn :: Backup(i, txn) in start && Get(m, Target(i)) == Some(start[Backup(i, txn)])
  }

  /** How far the recovery of target `i` has come. */
  ghost predicate Recovering(start: Entries, m: Entries, i: nat, rest: set<nat>) {
    Pending(start, m, i, rest) && TargetRecovered(start, m, i, rest) && OthersSame(start, m, i)
  }

  function BackupsOf(m: Entries, i: nat): (txns: set<nat>)
    ensures forall txn :: txn in txns <==> Backup(i, txn) in m
  {
    set p | p in m && p.Backup? && p.i == i :: p.txn
  }

  function StagesOf(m: Entries, i: nat): (txns: set<nat>)
    ensures forall txn :: txn in txns <==> Stage(i, txn) in m
  {
    set p | p in m && p.Stage? && p.i == i :: p.txn
  }

  lemma OneBackupRecovered(start: Entries, a: Entries, b: Entries, i: nat, rest: set<nat>, txn: nat)
    requires Recovering(start, a, i, rest) && txn in rest
    requires b == if Target(i) in a then a - {Backup(i, txn)} else Moved(a, Backup(i, txn), Target(i))
    ensures Recovering(start, b, i, rest - {txn})
  {
    assert Backup(i, txn) in start && txn !in rest - {txn};
    if Target(i) !in a {
      assert Get(b, Target(i)) == Some(start[Backup(i, txn)]);
    }
  }

  lemma StageLeavesRecovery(start: Entries, a: Entries, b: Entries, i: nat, rest: set<nat>, txn: nat)
    requires SameExcept(b, a, Stage(i, txn)) && Recovering(start, a, i, rest)
    ensures Recovering(start, b, i, rest)
  {
  }

  /** The run stopped with a target that is not the snapshot and an untouched backup beside it. */
  ghost predicate BothCopiesIntact(snapshot: Tree, start: Entries, m: Entries, i: nat) {
    && Target(i) in m && !Matches(snapshot, m[Target(i)])
    && exists txn :: Backup(i, txn) in start && Get(m, Backup(i, txn)) == Get(start, Backup(i, txn))
  }

  /**
   Recovery knows what to do with target `i`: it has no backup, or it is the complete snapshot, or it is gone and
   whichever backup is restored first leaves nothing to choose.
   */
  ghost predicate Unambiguous(snapshot: Tree, m: Entries, i: nat) {
    if Target(i) in m then Matches(snapshot, m[Target(i)]) || forall txn :: Backup(i, txn) !in m
    else forall x, y :: Backup(i, x) in m && Backup(i, y) in m ==> x == y || Matches(snapshot, m[Backup(i, x)])
  }

  /** The target is there but is not the complete snapshot, and a backup claims its place. */
  ghost predicate Contested(snapshot: Tree, m: Entries, i: nat) {
    Target(i) in m && !Matches(snapshot, m[Target(i)]) && exists txn :: Backup(i, txn) in m
  }

  lemma NoAmbiguity(snapshot: Tree, start: Entries, a: Entries, i: nat, rest: set<nat>, txn: nat)
    requires Recovering(start, a, i, rest) && txn in rest && Unambiguous(snapshot, start, i)
    ensures Target(i) in a ==> Matches(snapshot, a[Target(i)])
  {
    if Target(i) !in start && Target(i) in a {
      var x :| Backup(i, x) in start && Get(a, Target(i)) == Some(start[Backup(i, x)]);
      if x == txn {
        var y :| Backup(i, y) in start && y !in rest;
        assert y != txn;
      }
    }
  }

  lemma UnambiguousFrom(snapshot: Tree, start: Entries, middle: Entries, i: nat)
    requires forall p :: Of(p, i) ==> Get(start, p) == Get(middle, p)
    ensures Unambiguous(snapshot, start, i) <==> Unambiguous(snapshot, middle, i)
    ensures Contested(snapshot, start, i) <==> Contested(snapshot, middle, i)
  {
    assert Get(start, Target(i)) == Get(middle, Target(i)) by { assert Of(Target(i), i); }
    forall txn
      ensures Get(start, Backup(i, txn)) == Get(middle, Backup(i, txn))
    {
      assert Of(Backup(i, txn), i);
    }
  }

  /** One leftover backup and the stage beside it. */
  method RecoverPair(disk: Disk, i: nat, txn: nat, snapshot: Tree, ghost before: Entries, ghost from: nat,
                     ghost start: Entries, ghost rest: set<nat>) returns (r: Recovery)
    requires disk.Kept(snapshot, before, from) && Recovering(start, disk.entries, i, rest) && txn in rest
    modifies disk`entries, disk`trace, disk`failures
    ensures disk.Kept(snapshot, before, from) && old(disk.trace) <= disk.trace
    ensures OthersSame(start, disk.entries, i)
    ensures r == Clean ==> Recovering(start, disk.entries, i, rest - {txn})
    ensures r == Ambiguous ==> BothCopiesIntact(snapshot, start, disk.entries, i)
    ensures r == Ambiguous ==> !Unambiguous(snapshot, start, i)
    ensures r == Clean && Target(i) in start ==> Matches(snapshot, start[Target(i)])
    ensures disk.failures == old(disk.failures) + (if r == Failed then 1 else 0)
  {
    ghost var a := disk.entries;
    assert Get(a, Backup(i, txn)).Some?;
    if Unambiguous(snapshot, start, i) {
      NoAmbiguity(snapshot, start, a, i, rest, txn);
    }
    r := RecoverBackup(disk, i, txn, snapshot, before, from);
    if r != Clean {
      return;
    }
    ghost var b := disk.entries;
    OneBackupRecovered(start, a, b, i, rest, txn);
    var ok := RemoveStage(disk, i, txn, snapshot, before, from);
    StageLeavesRecovery(start, b, disk.entries, i, rest - {txn}, txn);
    if !ok {
      r := Failed;
    }
  }

  /** Every leftover backup of one target. */
  method RecoverBackups(disk: Disk, i: nat, snapshot: Tree, ghost before: Entries, ghost from: nat)
    returns (r: Recovery)
    requires disk.Kept(snapshot, before, from)
    modifies disk`entries, disk`trace, disk`failures
    ensures disk.Kept(snapshot, before, from) && old(disk.trace) <= disk.trace
    ensures OthersSame(old(disk.entries), disk.entries, i)
    ensures r == Clean ==> Recovering(old(disk.entries), disk.entries, i, {})
    ensures r == Ambiguous ==> BothCopiesIntact(snapshot, old(disk.entries), disk.entries, i)
    ensures r == Ambiguous ==> !Unambiguous(snapshot, old(disk.entries), i)
    ensures r == Clean ==> !Contested(snapshot, old(disk.entries), i)
    ensures disk.failures == old(disk.failures) + (if r == Failed then 1 else 0)
  {
    ghost var start := disk.entries;
    var rest := BackupsOf(disk.entries, i);
    while rest != {}
      invariant disk.Kept(snapshot, before, from) && old(disk.trace) <= disk.trace
      invariant rest == BackupsOf(start, i) || (Target(i) in start ==> Matches(snapshot, start[Target(i)]))
      invariant disk.failures == old(disk.failures)
      invariant Recovering(start, disk.entries, i, rest)
      decreases rest
    {
      var txn :| txn in rest;
      r := RecoverPair(disk, i, txn, snapshot, before, from, start, rest);
      if r != Clean {
        return;
      }
      rest := rest - {txn};
    }
    r := Clean;
  }

  /** What recovery leaves of one target: no artifact, and the target as it was, or the backup that was restored. */
  ghost predicate Settled(start: Entries, m: Entries, i: nat) {
    NoArtifacts(m, i) && TargetRecovered(start, m, i, {})
  }

  method RecoverTarget(disk: Disk, i: nat, snapshot: Tree, ghost before: Entries, ghost from: nat) returns (r: Recovery)
    requires disk.Kept(snapshot, before, from)
    modifies disk`entries, disk`trace, disk`failures
    ensures disk.Kept(snapshot, before, from) && old(disk.trace) <= disk.trace
    ensures OthersSame(old(disk.entries), disk.entries, i)
    ensures r == Clean ==> Settled(old(disk.entries), disk.entries, i)
    ensures r == Ambiguous ==> BothCopiesIntact(snapshot, old(disk.entries), disk.entries, i)
    ensures r == Ambiguous ==> !Unambiguous(snapshot, old(disk.entries), i)
    ensures r == Clean ==> !Contested(snapshot, old(disk.entries), i)
    ensures disk.failures == old(disk.failures) + (if r == Failed then 1 else 0)
  {
    ghost var start := disk.entries;
    r := RecoverBackups(disk, i, snapshot, before, from);
    if r != Clean {
      return;
    }
    var rest := StagesOf(disk.entries, i);
    while rest != {}
      invariant disk.Kept(snapshot, before, from) && old(disk.trace) <= disk.trace
      invariant disk.failures == old(disk.failures)
      invariant Recovering(start, disk.entries, i, {})
      invariant forall txn :: Stage(i, txn) in disk.entries ==> txn in rest
      decreases rest
    {
      var txn :| txn in rest;
      ghost var a := disk.entries;
      var ok := RemoveStage(disk, i, txn, snapshot, before, from);
      StageLeavesRecovery(start, a, disk.entries, i, {}, txn);
      if !ok {
        return Failed;
      }
      assert forall other :: other != txn ==> Get(disk.entries, Stage(i, other)) == Get(a, Stage(i, other));
      rest := rest - {txn};
    }
    assert forall txn :: Get(disk.entries, Backup(i, txn)) == None;
  }

  lemma SettledStays(start: Entries, a: Entries, b: Entries, i: nat, j: nat)
    requires Settled(start, a, j) && OthersSame(a, b, i) && i != j
    ensures Settled(start, b, j)
  {
    assert Get(a, Target(j)) == Get(b, Target(j)) by { assert !Of(Target(j), i); }
    forall txn
      ensures Stage(j, txn) !in b && Backup(j, txn) !in b
    {
      assert !Of(Stage(j, txn), i) && !Of(Backup(j, txn), i);
      assert Get(a, Stage(j, txn)) == None && Get(a, Backup(j, txn)) == None;
    }
  }

  lemma SettledFrom(start: Entries, middle: Entries, m: Entries, i: nat)
    requires Settled(middle, m, i) && forall p :: Of(p, i) ==> Get(start, p) == Get(middle, p)
    ensures Settled(start, m, i)
  {
    assert forall txn :: Get(start, Backup(i, txn)) == Get(middle, Backup(i, txn)) by {
      forall txn
        ensures Get(start, Backup(i, txn)) == Get(middle, Backup(i, txn))
      {
        assert Of(Backup(i, txn), i);
      }
    }
    assert Get(start, Target(i)) == Get(middle, Target(i)) by { assert Of(Target(i), i); }
    if Target(i) !in start && exists txn :: Backup(i, txn) in middle {
      var txn :| Backup(i, txn) in middle && Get(m, Target(i)) == Some(middle[Backup(i, txn)]);
      assert Get(start, Backup(i, txn)) == Some(middle[Backup(i, txn)]);
    }
  }

  /** Nothing outside the targets below `n` has changed. */
  ghost predicate Outside(a: Entries, b: Entries, n: nat) {
    forall p: Path :: p.i >= n ==> Get(a, p) == Get(b, p)
  }

  ghost predicate AllSettled(start: Entries, m: Entries, n: nat) {
    forall i :: 0 <= i < n ==> Settled(start, m, i)
  }

  ghost predicate AllUnambiguous(snapshot: Tree, m: Entries, n: nat) {
    forall i :: 0 <= i < n ==> Unambiguous(snapshot, m, i)
  }

  ghost predicate NoneContested(snapshot: Tree, m: Entries, n: nat) {
    forall i :: 0 <= i < n ==> !Contested(snapshot, m, i)
  }

  lemma UntouchedSoFar(before: Entries, a: Entries, i: nat)
    requires Outside(before, a, i)
    ensures forall p :: Of(p, i) ==> Get(before, p) == Get(a, p)
  {
  }

  lemma OneMoreSettled(before: Entries, a: Entries, b: Entries, i: nat)
    requires AllSettled(before, a, i) && Outside(before, a, i) && OthersSame(a, b, i) && Settled(a, b, i)
    ensures AllSettled(before, b, i + 1) && Outside(before, b, i + 1)
  {
    UntouchedSoFar(before, a, i);
    SettledFrom(before, a, b, i);
    forall j | 0 <= j < i
      ensures Settled(before, b, j)
    {
      SettledStays(before, a, b, i, j);
    }
    assert forall p: Path :: p.i >= i + 1 ==> !Of(p, i);
  }

  lemma StillBothIntact(snapshot: Tree, before: Entries, a: Entries, b: Entries, i: nat)
    requires Outside(before, a, i) && BothCopiesIntact(snapshot, a, b, i)
    ensures BothCopiesIntact(snapshot, before, b, i)
  {
    UntouchedSoFar(before, a, i);
    var txn :| Backup(i, txn) in a && Get(b, Backup(i, txn)) == Get(a, Backup(i, txn));
    assert Of(Backup(i, txn), i) && Get(before, Backup(i, txn)) == Get(a, Backup(i, txn));
  }

  method RecoverAll(disk: Disk, n: nat, snapshot: Tree, ghost before: Entries, ghost from: nat) returns (r: Recovery)
    requires before == disk.entries && disk.Kept(snapshot, before, from)
    modifies disk`entries, disk`trace, disk`failures
    ensures disk.Kept(snapshot, before, from) && old(disk.trace) <= disk.trace
    ensures Outside(before, disk.entries, n)
    ensures r == Clean ==> AllSettled(before, disk.entries, n) && NoneContested(snapshot, before, n)
    ensures r == Ambiguous ==> !AllUnambiguous(snapshot, before, n)
    ensures r == Ambiguous ==> exists i :: 0 <= i < n && BothCopiesIntact(snapshot, before, disk.entries, i)
    ensures disk.failures == old(disk.failures) + (if r == Failed then 1 else 0)
  {
    r := Clean;
    for i := 0 to n
      invariant disk.Kept(snapshot, before, from) && old(disk.trace) <= disk.trace
      invariant AllSettled(before, disk.entries, i) && Outside(before, disk.entries, i)
      invariant NoneContested(snapshot, before, i)
      invariant r == Clean && disk.failures == old(disk.failures)
    {
      ghost var a := disk.entries;
      r := RecoverTarget(disk, i, snapshot, before, from);
      UntouchedSoFar(before, a, i);
      UnambiguousFrom(snapshot, before, a, i);
      if r == Ambiguous {
        StillBothIntact(snapshot, before, a, disk.entries, i);
      }
      if r != Clean {
        assert forall p: Path :: p.i >= n ==> !Of(p, i);
        return;
      }
      OneMoreSettled(before, a, disk.entries, i);
    }
  }
}
