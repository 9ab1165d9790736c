/** The distribution transaction on a recovered disk: stage everything, promote everything, or put everything back. */
module DistributionRun {
  import opened Basics
  import opened Distribution

  /**
   One target while the transaction runs: its old tree is at the target, or in this transaction's backup once it was
   moved there; a promoted target holds the snapshot and has no stage. What a stage holds before does not matter.
   */
  ghost predicate SlotState(m: Entries, start: Entries, i: nat, txn: nat, snapshot: Tree, backedUp: bool,
                            promoted: bool)
  {
    && (forall other :: other != txn ==> Get(m, Stage(i, other)) == None && Get(m, Backup(i, other)) == None)
    && (backedUp ==> Get(start, Target(i)).Some?)
    && Get(m, Backup(i, txn)) == (if backedUp then Get(start, Target(i)) else None)
    && (promoted ==> Get(m, Target(i)) == Some(snapshot) && Get(m, Stage(i, txn)) == None
                     && (Get(start, Target(i)).Some? ==> backedUp))
    && (!promoted ==> Get(m, Target(i)) == (if backedUp then None else Get(start, Target(i))))
  }

  ghost predicate AllSlots(m: Entries, start: Entries, n: nat, txn: nat, snapshot: Tree, backedUp: seq<bool>,
                           promoted: seq<bool>)
  {
    && |backedUp| == n && |promoted| == n
    && Outside(start, m, n)
    && forall i :: 0 <= i < n ==> SlotState(m, start, i, txn, snapshot, backedUp[i], promoted[i])
  }

  function Cleared(n: nat): (flags: seq<bool>)
    ensures |flags| == n && forall i :: 0 <= i < n ==> !flags[i]
  {
    seq(n, i => false)
  }

  ghost predicate NoneLeft(m: Entries, n: nat) {
    forall i :: 0 <= i < n ==> NoArtifacts(m, i)
  }

  /** A change confined to target `i` moves just that target on. */
  lemma SlotMoves(a: Entries, b: Entries, start: Entries, n: nat, txn: nat, snapshot: Tree, backedUp: seq<bool>,
                  promoted: seq<bool>, i: nat, nowBackedUp: bool, nowPromoted: bool)
    requires AllSlots(a, start, n, txn, snapshot, backedUp, promoted) && i < n && OthersSame(a, b, i)
    requires SlotState(b, start, i, txn, snapshot, nowBackedUp, nowPromoted)
    ensures AllSlots(b, start, n, txn, snapshot, backedUp[i := nowBackedUp], promoted[i := nowPromoted])
  {
    assert forall p: Path :: p.i >= n ==> !Of(p, i);
    forall j | 0 <= j < n && j != i
      ensures SlotState(b, start, j, txn, snapshot, backedUp[j], promoted[j])
    {
      SlotUntouched(a, b, start, j, txn, snapshot, backedUp[j], promoted[j], i);
    }
  }

  lemma SlotUntouched(a: Entries, b: Entries, start: Entries, j: nat, txn: nat, snapshot: Tree, backedUp: bool,
                      promoted: bool, i: nat)
    requires SlotState(a, start, j, txn, snapshot, backedUp, promoted) && OthersSame(a, b, i) && i != j
    ensures SlotState(b, start, j, txn, snapshot, backedUp, promoted)
  {
    assert !Of(Target(j), i);
    forall t
      ensures Get(a, Stage(j, t)) == Get(b, Stage(j, t)) && Get(a, Backup(j, t)) == Get(b, Backup(j, t))
    {
      assert !Of(Stage(j, t), i) && !Of(Backup(j, t), i);
    }
  }

  /** In every state of the transaction the old trees of the recovered disk are still there. */
  lemma SlotsKeep(before: Entries, m: Entries, start: Entries, n: nat, txn: nat, snapshot: Tree, backedUp: seq<bool>,
                  promoted: seq<bool>)
    requires Keeps(snapshot, before, start) && NoneLeft(start, n)
    requires AllSlots(m, start, n, txn, snapshot, backedUp, promoted)
    ensures Keeps(snapshot, before, m)
  {
    forall i: nat, t | Present(start, i, t)
      ensures Present(m, i, t)
    {
      if i < n {
        assert SlotState(m, start, i, txn, snapshot, backedUp[i], promoted[i]);
        assert NoArtifacts(start, i);
        assert Get(start, Target(i)) == Some(t);
      } else if Get(start, Target(i)) == Some(t) {
        assert Get(m, Target(i)) == Some(t);
      } else {
        var other :| Get(start, Backup(i, other)) == Some(t);
        assert Get(m, Backup(i, other)) == Some(t);
      }
    }
  }

  lemma SlotsAtStart(start: Entries, n: nat, txn: nat, snapshot: Tree)
    requires NoneLeft(start, n)
    ensures AllSlots(start, start, n, txn, snapshot, Cleared(n), Cleared(n))
  {
    forall i | 0 <= i < n
      ensures SlotState(start, start, i, txn, snapshot, false, false)
    {
      assert NoArtifacts(start, i);
    }
  }

  /** Whatever happens to the stage of a target that is not promoted leaves its state as it is. */
  lemma StageIsFree(a: Entries, b: Entries, start: Entries, i: nat, txn: nat, snapshot: Tree, backedUp: bool)
    requires SlotState(a, start, i, txn, snapshot, backedUp, false) && SameExcept(b, a, Stage(i, txn))
    ensures SlotState(b, start, i, txn, snapshot, backedUp, false) && OthersSame(a, b, i)
  {
  }

  /** So such a change keeps the whole transaction's state. */
  lemma StageStep(a: Entries, b: Entries, start: Entries, n: nat, txn: nat, snapshot: Tree, backedUp: seq<bool>,
                  promoted: seq<bool>, i: nat)
    requires AllSlots(a, start, n, txn, snapshot, backedUp, promoted) && i < n && !promoted[i]
    requires SameExcept(b, a, Stage(i, txn))
    ensures AllSlots(b, start, n, txn, snapshot, backedUp, promoted) && OthersSame(a, b, i)
  {
    assert SlotState(a, start, i, txn, snapshot, backedUp[i], promoted[i]);
    StageIsFree(a, b, start, i, txn, snapshot, backedUp[i]);
    SlotMoves(a, b, start, n, txn, snapshot, backedUp, promoted, i, backedUp[i], false);
    assert backedUp[i := backedUp[i]] == backedUp && promoted[i := false] == promoted;
  }

  /** A disk with no slot moved and no stage left is the disk the transaction started from. */
  lemma NothingMoved(m: Entries, start: Entries, n: nat, txn: nat, snapshot: Tree, backedUp: seq<bool>,
                     promoted: seq<bool>)
    requires NoneLeft(start, n) && AllSlots(m, start, n, txn, snapshot, backedUp, promoted)
    requires forall i :: 0 <= i < n ==> !backedUp[i] && !promoted[i] && Get(m, Stage(i, txn)) == None
    ensures m == start
  {
    forall p: Path
      ensures Get(m, p) == Get(start, p)
    {
      if p.i < n {
        assert SlotState(m, start, p.i, txn, snapshot, backedUp[p.i], promoted[p.i]);
        assert NoArtifacts(start, p.i);
      }
    }
    assert forall p :: p in m <==> p in start by {
      forall p: Path
        ensures p in m <==> p in start
      {
        assert Get(m, p) == Get(start, p);
      }
    }
    assert forall p :: p in m ==> m[p] == start[p] by {
      forall p: Path | p in m
        ensures m[p] == start[p]
      {
        assert Get(m, p) == Get(start, p);
      }
    }
  }

  // ---------------------------------------------------------------- staging

  /** Staging fails for a step that failed, or because the snapshot itself carries files that may not be distributed. */
  predicate StagingAccount(snapshot: Tree, ok: bool, before: nat, after: nat) {
    if ok then after == before else after == before + 1 || (after == before && !Matches(snapshot, snapshot))
  }

  method StageOne(disk: Disk, i: nat, n: nat, txn: nat, snapshot: Tree, ghost start: Entries, ghost before: Entries,
                  ghost from: nat, ghost none: seq<bool>) returns (ok: bool)
    requires i < n && disk.Kept(snapshot, before, from) && Stage(i, txn) !in disk.entries
    requires AllSlots(disk.entries, start, n, txn, snapshot, none, none) && !none[i]
    modifies disk`entries, disk`trace, disk`failures
    ensures disk.Kept(snapshot, before, from) && old(disk.trace) <= disk.trace
    ensures AllSlots(disk.entries, start, n, txn, snapshot, none, none)
    ensures SameExcept(disk.entries, old(disk.entries), Stage(i, txn))
    ensures ok ==> Get(disk.entries, Stage(i, txn)) == Some(snapshot) && Matches(snapshot, snapshot)
    ensures StagingAccount(snapshot, ok, old(disk.failures), disk.failures)
  {
    ghost var a := disk.entries;
    ghost var mid;
    ok, mid := disk.CopyTo(Stage(i, txn), snapshot);
    StagesDoNotMatter(snapshot, a, mid, Stage(i, txn));
    StagesDoNotMatter(snapshot, mid, disk.entries, Stage(i, txn));
    PreservingSteps(snapshot, before, old(disk.trace), from, mid, disk.entries);
    StageStep(a, disk.entries, start, n, txn, snapshot, none, none, i);
    if ok {
      ok := Matches(snapshot, disk.entries[Stage(i, txn)]);
    }
  }

  /** Stages the snapshot beside every target; nothing else changes. */
  method StageAll(disk: Disk, n: nat, txn: nat, snapshot: Tree, ghost start: Entries, ghost before: Entries,
                  ghost from: nat) returns (ok: bool)
    requires disk.entries == start && disk.Kept(snapshot, before, from) && NoneLeft(start, n)
    modifies disk
    ensures disk.Kept(snapshot, before, from) && old(disk.trace) <= disk.trace
    ensures AllSlots(disk.entries, start, n, txn, snapshot, Cleared(n), Cleared(n))
    ensures ok ==> forall i :: 0 <= i < n ==> Get(disk.entries, Stage(i, txn)) == Some(snapshot)
    ensures ok && n > 0 ==> Matches(snapshot, snapshot)
    ensures StagingAccount(snapshot, ok, old(disk.failures), disk.failures)
    ensures n == 0 && !ok ==> disk.failures == old(disk.failures) + 1
    ensures ok ==> disk.comparisons == old(disk.comparisons) + 1
  {
    ghost var none := Cleared(n);
    SlotsAtStart(start, n, txn, snapshot);
    forall k | 0 <= k < n
      ensures Get(start, Stage(k, txn)) == None
    {
      assert NoArtifacts(start, k);
    }
    for i := 0 to n
      invariant disk.Kept(snapshot, before, from) && old(disk.trace) <= disk.trace
      invariant AllSlots(disk.entries, start, n, txn, snapshot, none, none)
      invariant forall k :: 0 <= k < i ==> Get(disk.entries, Stage(k, txn)) == Some(snapshot)
      invariant forall k :: i <= k < n ==> Get(disk.entries, Stage(k, txn)) == None
      invariant i > 0 ==> Matches(snapshot, snapshot)
      invariant disk.failures == old(disk.failures) && disk.comparisons == old(disk.comparisons)
    {
      assert SlotState(disk.entries, start, i, txn, snapshot, none[i], none[i]);
      ok := Stage(i, txn) !in disk.entries && Backup(i, txn) !in disk.entries;
      ghost var a := disk.entries;
      if ok {
        ok := StageOne(disk, i, n, txn, snapshot, start, before, from, none);
      }
      if !ok {
        return;
      }
      assert forall k :: 0 <= k < n && k != i ==> Get(disk.entries, Stage(k, txn)) == Get(a, Stage(k, txn));
    }
    ok := disk.Compare();     // the canonical source may have changed meanwhile
  }

  // ---------------------------------------------------------------- promotion

  /** Moves an old target to its backup. */
  method BackUp(disk: Disk, i: nat, n: nat, txn: nat, snapshot: Tree, ghost start: Entries, ghost before: Entries,
                ghost from: nat, ghost backedUp: seq<bool>, ghost promoted: seq<bool>) returns (ok: bool)
    requires i < n && disk.Kept(snapshot, before, from) && Target(i) in disk.entries
    requires AllSlots(disk.entries, start, n, txn, snapshot, backedUp, promoted) && !backedUp[i] && !promoted[i]
    modifies disk`entries, disk`trace, disk`failures
    ensures disk.Kept(snapshot, before, from) && old(disk.trace) <= disk.trace
    ensures AllSlots(disk.entries, start, n, txn, snapshot, backedUp[i := ok], promoted)
    ensures OthersSame(old(disk.entries), disk.entries, i)
    ensures Get(disk.entries, Stage(i, txn)) == Get(old(disk.entries), Stage(i, txn))
    ensures disk.failures == old(disk.failures) + (if ok then 0 else 1)
  {
    ghost var a := disk.entries;
    assert SlotState(a, start, i, txn, snapshot, false, false);
    ok := disk.Rename(Target(i), Backup(i, txn));
    MovePreserves(snapshot, a, Target(i), Backup(i, txn));
    PreservingStep(snapshot, before, old(disk.trace), from, disk.entries);
    SlotMoves(a, disk.entries, start, n, txn, snapshot, backedUp, promoted, i, ok, false);
    assert promoted[i := false] == promoted;
  }

  /**
   Moves one old target to its backup and its stage to the target. What was promoted is then compared with the
   snapshot again, and the step can still fail there.
   */
  method PromoteOne(disk: Disk, i: nat, n: nat, txn: nat, snapshot: Tree, ghost start: Entries, ghost before: Entries,
                    ghost from: nat, ghost backedUp: seq<bool>, ghost promoted: seq<bool>)
    returns (ok: bool, nowBackedUp: bool, nowPromoted: bool)
    requires i < n && disk.Kept(snapshot, before, from)
    requires AllSlots(disk.entries, start, n, txn, snapshot, backedUp, promoted) && !backedUp[i] && !promoted[i]
    requires Get(disk.entries, Stage(i, txn)) == Some(snapshot)
    modifies disk
    ensures disk.Kept(snapshot, before, from) && old(disk.trace) <= disk.trace
    ensures AllSlots(disk.entries, start, n, txn, snapshot, backedUp[i := nowBackedUp], promoted[i := nowPromoted])
    ensures OthersSame(old(disk.entries), disk.entries, i)
    ensures ok ==> nowPromoted && disk.comparisons == old(disk.comparisons) + 1
    ensures disk.failures == old(disk.failures) + (if ok then 0 else 1)
  {
    ok, nowBackedUp, nowPromoted := true, false, false;
    assert SlotState(disk.entries, start, i, txn, snapshot, false, false);
    assert backedUp[i := false] == backedUp && promoted[i := false] == promoted;
    if Target(i) in disk.entries {
      ok := BackUp(disk, i, n, txn, snapshot, start, before, from, backedUp, promoted);
      nowBackedUp := ok;
      if !ok {
        return;
      }
    }
    ghost var b, flags, steps := disk.entries, backedUp[i := nowBackedUp], disk.trace;
    assert SlotState(b, start, i, txn, snapshot, flags[i], promoted[i]);
    ok := disk.Rename(Stage(i, txn), Target(i));
    nowPromoted := ok;
    MovePreserves(snapshot, b, Stage(i, txn), Target(i));
    PreservingStep(snapshot, before, steps, from, disk.entries);
    SlotMoves(b, disk.entries, start, n, txn, snapshot, flags, promoted, i, nowBackedUp, nowPromoted);
    assert flags[i := nowBackedUp] == flags;
    if ok {
      ok := disk.Compare();     // the promoted tree may differ from the snapshot
    }
  }

  method PromoteAll(disk: Disk, n: nat, txn: nat, snapshot: Tree, ghost start: Entries, ghost before: Entries,
                    ghost from: nat) returns (ok: bool, backedUp: seq<bool>, promoted: seq<bool>)
    requires disk.Kept(snapshot, before, from)
    requires AllSlots(disk.entries, start, n, txn, snapshot, Cleared(n), Cleared(n))
    requires forall i :: 0 <= i < n ==> Get(disk.entries, Stage(i, txn)) == Some(snapshot)
    modifies disk
    ensures disk.Kept(snapshot, before, from) && old(disk.trace) <= disk.trace
    ensures AllSlots(disk.entries, start, n, txn, snapshot, backedUp, promoted)
    ensures ok ==> forall i :: 0 <= i < n ==> promoted[i]
    ensures ok ==> disk.comparisons == old(disk.comparisons) + n + 1
    ensures disk.failures == old(disk.failures) + (if ok then 0 else 1)
  {
    backedUp, promoted := Cleared(n), Cleared(n);
    for i := 0 to n
      invariant disk.Kept(snapshot, before, from) && old(disk.trace) <= disk.trace
      invariant AllSlots(disk.entries, start, n, txn, snapshot, backedUp, promoted)
      invariant forall k :: 0 <= k < i ==> promoted[k]
      invariant forall k :: i <= k < n ==> !backedUp[k] && !promoted[k]
      invariant disk.failures == old(disk.failures) && disk.comparisons == old(disk.comparisons) + i
      invariant forall k :: i <= k < n ==> Get(disk.entries, Stage(k, txn)) == Some(snapshot)
    {
      var nowBackedUp, nowPromoted;
      ok, nowBackedUp, nowPromoted := PromoteOne(disk, i, n, txn, snapshot, start, before, from, backedUp, promoted);
      backedUp, promoted := backedUp[i := nowBackedUp], promoted[i := nowPromoted];
      if !ok {
        return;
      }
      forall k | i < k < n
        ensures Get(disk.entries, Stage(k, txn)) == Some(snapshot)
      {
        assert !Of(Stage(k, txn), i);
      }
    }
    ok := disk.Compare();     // the canonical source may have changed meanwhile
  }

  // ---------------------------------------------------------------- rollback

  /** Taking the snapshot off its target loses no other tree. */
  lemma UnpromoteLosesOnlySnapshot(snapshot: Tree, a: Entries, i: nat, txn: nat)
    requires Get(a, Target(i)) == Some(snapshot) && Stage(i, txn) !in a
    ensures StepKeeps(snapshot, a, Moved(a, Target(i), Stage(i, txn)))
  {
    var b := Moved(a, Target(i), Stage(i, txn));
    forall j, t | Present(a, j, t) && t != snapshot
      ensures Present(b, j, t)
    {
      if Get(a, Target(j)) == Some(t) {
        assert Get(b, Target(j)) == Some(t);
      } else {
        var other :| Get(a, Backup(j, other)) == Some(t);
        assert Get(b, Backup(j, other)) == Some(t);
      }
    }
  }

  /** Takes a promoted snapshot off its target again. */
  method Unpromote(disk: Disk, i: nat, n: nat, txn: nat, snapshot: Tree, ghost start: Entries, ghost before: Entries,
                   ghost from: nat, ghost backedUp: seq<bool>, promoted: seq<bool>) returns (ok: bool)
    requires i < n && disk.Kept(snapshot, before, from) && Keeps(snapshot, before, start) && NoneLeft(start, n)
    requires AllSlots(disk.entries, start, n, txn, snapshot, backedUp, promoted)
    modifies disk`entries, disk`trace, disk`failures
    ensures disk.Kept(snapshot, before, from) && old(disk.trace) <= disk.trace
    ensures AllSlots(disk.entries, start, n, txn, snapshot, backedUp, if ok then promoted[i := false] else promoted)
    ensures OthersSame(old(disk.entries), disk.entries, i)
    ensures disk.failures == old(disk.failures) + (if ok then 0 else 1)
  {
    ok := true;
    ghost var a := disk.entries;
    assert SlotState(a, start, i, txn, snapshot, backedUp[i], promoted[i]);
    assert backedUp[i := backedUp[i]] == backedUp;
    if promoted[i] && Target(i) in disk.entries {
      UnpromoteLosesOnlySnapshot(snapshot, a, i, txn);
      ok := disk.Rename(Target(i), Stage(i, txn));
      if ok {
        SlotMoves(a, disk.entries, start, n, txn, snapshot, backedUp, promoted, i, backedUp[i], false);
        SlotsKeep(before, disk.entries, start, n, txn, snapshot, backedUp, promoted[i := false]);
        TraceGrows(snapshot, before, old(disk.trace), from, disk.entries);
      } else {
        PreservingStep(snapshot, before, old(disk.trace), from, disk.entries);
      }
    } else {
      assert promoted[i := false] == promoted;
    }
  }

  /** Moves the old tree back from its backup. */
  method Restore(disk: Disk, i: nat, n: nat, txn: nat, snapshot: Tree, ghost start: Entries, ghost before: Entries,
                 ghost from: nat, backedUp: seq<bool>, ghost promoted: seq<bool>) returns (ok: bool)
    requires i < n && disk.Kept(snapshot, before, from)
    requires AllSlots(disk.entries, start, n, txn, snapshot, backedUp, promoted) && !promoted[i]
    modifies disk`entries, disk`trace, disk`failures
    ensures disk.Kept(snapshot, before, from) && old(disk.trace) <= disk.trace
    ensures AllSlots(disk.entries, start, n, txn, snapshot, if ok then backedUp[i := false] else backedUp, promoted)
    ensures OthersSame(old(disk.entries), disk.entries, i)
    ensures disk.failures == old(disk.failures) + (if ok then 0 else 1)
  {
    ok := true;
    ghost var a := disk.entries;
    assert SlotState(a, start, i, txn, snapshot, backedUp[i], promoted[i]);
    assert promoted[i := false] == promoted;
    if backedUp[i] && Backup(i, txn) in disk.entries {
      ok := disk.Rename(Backup(i, txn), Target(i));
      MovePreserves(snapshot, a, Backup(i, txn), Target(i));
      PreservingStep(snapshot, before, old(disk.trace), from, disk.entries);
      if ok {
        SlotMoves(a, disk.entries, start, n, txn, snapshot, backedUp, promoted, i, false, false);
      }
    } else {
      assert backedUp[i := false] == backedUp;
    }
  }

  method DropStage(disk: Disk, i: nat, n: nat, txn: nat, snapshot: Tree, ghost start: Entries, ghost before: Entries,
                   ghost from: nat, ghost backedUp: seq<bool>, ghost promoted: seq<bool>) returns (ok: bool)
    requires i < n && disk.Kept(snapshot, before, from)
    requires AllSlots(disk.entries, start, n, txn, snapshot, backedUp, promoted) && !promoted[i]
    modifies disk`entries, disk`trace, disk`failures
    ensures disk.Kept(snapshot, before, from) && old(disk.trace) <= disk.trace
    ensures AllSlots(disk.entries, start, n, txn, snapshot, backedUp, promoted)
    ensures OthersSame(old(disk.entries), disk.entries, i)
    ensures ok ==> Get(disk.entries, Stage(i, txn)) == None
    ensures disk.failures == old(disk.failures) + (if ok then 0 else 1)
  {
    ok := true;
    if Stage(i, txn) in disk.entries {
      ghost var a := disk.entries;
      ghost var mid;
      ok, mid := disk.Remove(Stage(i, txn));
      StagesDoNotMatter(snapshot, a, mid, Stage(i, txn));
      StagesDoNotMatter(snapshot, mid, disk.entries, Stage(i, txn));
      PreservingSteps(snapshot, before, old(disk.trace), from, mid, disk.entries);
      StageStep(a, disk.entries, start, n, txn, snapshot, backedUp, promoted, i);
    }
  }

  /** Undoes promotion and staging of one target. */
  method RollbackOne(disk: Disk, i: nat, n: nat, txn: nat, snapshot: Tree, ghost start: Entries, ghost before: Entries,
                     ghost from: nat, backedUp: seq<bool>, promoted: seq<bool>) returns (ok: bool)
    requires disk.Kept(snapshot, before, from) && Keeps(snapshot, before, start) && NoneLeft(start, n)
    requires AllSlots(disk.entries, start, n, txn, snapshot, backedUp, promoted) && i < n
    modifies disk`entries, disk`trace, disk`failures
    ensures disk.Kept(snapshot, before, from) && old(disk.trace) <= disk.trace
    ensures ok ==> AllSlots(disk.entries, start, n, txn, snapshot, backedUp[i := false], promoted[i := false])
    ensures ok ==> Get(disk.entries, Stage(i, txn)) == None
    ensures OthersSame(old(disk.entries), disk.entries, i)
    ensures disk.failures == old(disk.failures) + (if ok then 0 else 1)
  {
    ok := Unpromote(disk, i, n, txn, snapshot, start, before, from, backedUp, promoted);
    if ok {
      ok := Restore(disk, i, n, txn, snapshot, start, before, from, backedUp, promoted[i := false]);
    }
    if ok {
      ghost var b, p := backedUp[i := false], promoted[i := false];
      ok := DropStage(disk, i, n, txn, snapshot, start, before, from, b, p);
    }
  }

  lemma OutsideStays(start: Entries, a: Entries, b: Entries, n: nat, i: nat)
    requires Outside(start, a, n) && OthersSame(a, b, i) && i < n
    ensures Outside(start, b, n)
  {
    assert forall p: Path :: p.i >= n ==> !Of(p, i);
  }

  /** Undoes promotion and staging in reverse order. When no step of it fails, the disk is again what recovery left. */
  method Rollback(disk: Disk, n: nat, txn: nat, snapshot: Tree, ghost start: Entries, ghost before: Entries,
                  ghost from: nat, backedUp: seq<bool>, promoted: seq<bool>) returns (ok: bool)
    requires disk.Kept(snapshot, before, from) && Keeps(snapshot, before, start) && NoneLeft(start, n)
    requires AllSlots(disk.entries, start, n, txn, snapshot, backedUp, promoted)
    modifies disk`entries, disk`trace, disk`failures
    ensures disk.Kept(snapshot, before, from) && old(disk.trace) <= disk.trace
    ensures ok ==> disk.entries == start
    ensures Outside(start, disk.entries, n)
    ensures disk.failures == old(disk.failures) + (if ok then 0 else 1)
  {
    var b, p := backedUp, promoted;
    for i := n downto 0
      invariant disk.Kept(snapshot, before, from) && old(disk.trace) <= disk.trace
      invariant disk.failures == old(disk.failures)
      invariant AllSlots(disk.entries, start, n, txn, snapshot, b, p)
      invariant forall k :: i <= k < n ==> !b[k] && !p[k] && Get(disk.entries, Stage(k, txn)) == None
    {
      ghost var a := disk.entries;
      ok := RollbackOne(disk, i, n, txn, snapshot, start, before, from, b, p);
      OutsideStays(start, a, disk.entries, n, i);
      if !ok {
        return;
      }
      b, p := b[i := false], p[i := false];
      forall k | i < k < n
        ensures Get(disk.entries, Stage(k, txn)) == None
      {
        assert !Of(Stage(k, txn), i);
        assert Get(disk.entries, Stage(k, txn)) == Get(a, Stage(k, txn));
      }
    }
    NothingMoved(disk.entries, start, n, txn, snapshot, b, p);
    ok := true;
  }

  // ---------------------------------------------------------------- cleanup and the whole run

  ghost predicate AllDelivered(m: Entries, n: nat, snapshot: Tree) {
    forall i :: 0 <= i < n ==> Get(m, Target(i)) == Some(snapshot)
  }

  ghost predicate OnlyBackups(m: Entries, n: nat, txn: nat, from: nat) {
    forall i: nat, other: nat :: i < n ==> Leftover(m, i, other, txn, from)
  }

  /** At most this transaction's backup is left, and only from target `from` on. */
  ghost predicate Leftover(m: Entries, i: nat, other: nat, txn: nat, from: nat) {
    Get(m, Stage(i, other)) == None && (other != txn || i < from ==> Get(m, Backup(i, other)) == None)
  }

  lemma BackupGone(a: Entries, b: Entries, n: nat, txn: nat, i: nat)
    requires OnlyBackups(a, n, txn, i) && SameExcept(b, a, Backup(i, txn)) && Backup(i, txn) !in b
    ensures OnlyBackups(b, n, txn, i + 1)
  {
    var next := i + 1;
    forall j: nat, other: nat | j < n
      ensures Leftover(b, j, other, txn, next)
    {
      assert Leftover(a, j, other, txn, i);
      assert Get(b, Stage(j, other)) == Get(a, Stage(j, other));
      assert Backup(j, other) != Backup(i, txn) ==> Get(b, Backup(j, other)) == Get(a, Backup(j, other));
    }
  }

  /** Removes this transaction's backups, every target holding the snapshot by then. */
  method Cleanup(disk: Disk, n: nat, txn: nat, snapshot: Tree, ghost before: Entries, ghost from: nat)
    returns (ok: bool)
    requires disk.Kept(snapshot, before, from) && AllDelivered(disk.entries, n, snapshot)
    requires OnlyBackups(disk.entries, n, txn, 0) && (n > 0 ==> Matches(snapshot, snapshot))
    modifies disk`entries, disk`trace, disk`failures
    ensures disk.Kept(snapshot, before, from) && old(disk.trace) <= disk.trace
    ensures AllDelivered(disk.entries, n, snapshot)
    ensures ok ==> OnlyBackups(disk.entries, n, txn, n)
    ensures Outside(old(disk.entries), disk.entries, n)
    ensures disk.failures == old(disk.failures) + (if ok then 0 else 1)
  {
    for i := 0 to n
      invariant disk.Kept(snapshot, before, from) && old(disk.trace) <= disk.trace
      invariant disk.failures == old(disk.failures)
      invariant AllDelivered(disk.entries, n, snapshot)
      invariant OnlyBackups(disk.entries, n, txn, i) && Outside(old(disk.entries), disk.entries, n)
    {
      ghost var a, steps := disk.entries, disk.trace;
      if Backup(i, txn) in disk.entries {
        assert Get(a, Target(i)) == Some(snapshot);
        ghost var mid;
        ok, mid := disk.Remove(Backup(i, txn));
        SnapshotCoversBackup(snapshot, a, mid, Backup(i, txn));
        SnapshotCoversBackup(snapshot, mid, disk.entries, Backup(i, txn));
        PreservingSteps(snapshot, before, steps, from, mid, disk.entries);
        if !ok {
          return;
        }
      }
      BackupGone(a, disk.entries, n, txn, i);
    }
    ok := true;
  }

  datatype Ending = Done | RolledBack | RollbackFailed | RecoveryStopped(why: Recovery) | CleanupFailed

  /** Every target holds the snapshot and no stage or backup of any transaction is left. */
  ghost predicate Complete(m: Entries, n: nat, snapshot: Tree) {
    AllDelivered(m, n, snapshot) && NoneLeft(m, n)
  }

  /**
   Which ending a run can have, by what failed in it: without a failure, an ambiguous target or a snapshot that may not
   be distributed, only `Done`.
   */
  ghost predicate EndingAccount(ending: Ending, snapshot: Tree, before: Entries, n: nat, failures: int) {
    var distributable := n == 0 || Matches(snapshot, snapshot);
    match ending
    case Done => failures == 0 && distributable
    case RolledBack => failures == 1 || (failures == 0 && !distributable)
    case RollbackFailed => failures == 2 || (failures == 1 && !distributable)
    case CleanupFailed => failures == 1 && distributable
    case RecoveryStopped(why) =>
      if why == Ambiguous then failures == 0 && !AllUnambiguous(snapshot, before, n) else why == Failed && failures == 1
  }

  lemma CleanIsComplete(m: Entries, n: nat, txn: nat, snapshot: Tree)
    requires AllDelivered(m, n, snapshot) && OnlyBackups(m, n, txn, n)
    ensures Complete(m, n, snapshot)
  {
    forall i: nat, other: nat | i < n
      ensures Stage(i, other) !in m && Backup(i, other) !in m
    {
      assert Leftover(m, i, other, txn, n);
    }
  }

  lemma PromotedIsDelivered(m: Entries, start: Entries, n: nat, txn: nat, snapshot: Tree, backedUp: seq<bool>,
                            promoted: seq<bool>)
    requires AllSlots(m, start, n, txn, snapshot, backedUp, promoted) && forall i :: 0 <= i < n ==> promoted[i]
    ensures AllDelivered(m, n, snapshot) && OnlyBackups(m, n, txn, 0)
  {
    forall i: nat, other: nat | i < n
      ensures Get(m, Target(i)) == Some(snapshot) && Leftover(m, i, other, txn, 0)
    {
      assert SlotState(m, start, i, txn, snapshot, backedUp[i], promoted[i]);
    }
    forall i: nat | i < n
      ensures Get(m, Target(i)) == Some(snapshot)
    {
      assert SlotState(m, start, i, txn, snapshot, backedUp[i], promoted[i]);
    }
  }

  lemma SettledIsClean(before: Entries, recovered: Entries, n: nat)
    requires AllSettled(before, recovered, n)
    ensures NoneLeft(recovered, n)
  {
    forall i | 0 <= i < n
      ensures NoArtifacts(recovered, i)
    {
      assert Settled(before, recovered, i);
    }
  }

  /**
   `syncDistributionTargets`: all or nothing. A run in which nothing fails is done. Done means every target is the
   snapshot and nothing else is left; rolled back means the disk is exactly what recovery left, whichever staging or
   promotion step failed; and no state on the way, nor any half-finished one, has lost a tree that was at a target or
   in a backup before the run, not even when the rollback fails itself.
   */
  method SyncTargets(disk: Disk, n: nat, txn: nat, snapshot: Tree) returns (ending: Ending, ghost recovered: Entries)
    requires disk.Valid()
    modifies disk
    ensures old(disk.trace) <= disk.trace && disk.Kept(snapshot, old(disk.entries), |old(disk.trace)| - 1)
    ensures !ending.RecoveryStopped? ==>
              AllSettled(old(disk.entries), recovered, n) && Keeps(snapshot, old(disk.entries), recovered)
    ensures ending == Done ==> Complete(disk.entries, n, snapshot) && disk.comparisons == old(disk.comparisons) + n + 2
    ensures ending == CleanupFailed ==> AllDelivered(disk.entries, n, snapshot)
    ensures ending == RolledBack ==> disk.entries == recovered
    ensures ending == RecoveryStopped(Ambiguous) ==>
              exists i :: 0 <= i < n && BothCopiesIntact(snapshot, old(disk.entries), disk.entries, i)
    ensures Outside(old(disk.entries), disk.entries, n)
    ensures EndingAccount(ending, snapshot, old(disk.entries), n, disk.failures - old(disk.failures))
    ensures !ending.RecoveryStopped? ==> NoneContested(snapshot, old(disk.entries), n)
  {
    ghost var before, from := disk.entries, |disk.trace| - 1;
    var r := RecoverAll(disk, n, snapshot, before, from);
    recovered := disk.entries;
    if r != Clean {
      return RecoveryStopped(r), recovered;
    }
    SettledIsClean(before, recovered, n);
    var ok := StageAll(disk, n, txn, snapshot, recovered, before, from);
    var backedUp, promoted := Cleared(n), Cleared(n);
    if ok {
      ok, backedUp, promoted := PromoteAll(disk, n, txn, snapshot, recovered, before, from);
    }
    if !ok {
      ok := Rollback(disk, n, txn, snapshot, recovered, before, from, backedUp, promoted);
      return if ok then RolledBack else RollbackFailed, recovered;
    }
    PromotedIsDelivered(disk.entries, recovered, n, txn, snapshot, backedUp, promoted);
    ok := Cleanup(disk, n, txn, snapshot, before, from);
    if !ok {
      return CleanupFailed, recovered;
    }
    CleanIsComplete(disk.entries, n, txn, snapshot);
    ending := Done;
  }

  // ---------------------------------------------------------------- crashes

  datatype Attempt = Attempt(n: nat, txn: nat, snapshot: Tree)

  /** The tree is still complete at its target or in a backup, or the complete snapshot of one of the attempts is. */
  ghost predicate Survives(m: Entries, i: nat, t: Tree, attempts: seq<Attempt>) {
    || Present(m, i, t)
    || exists k :: 0 <= k < |attempts| && Matches(attempts[k].snapshot, attempts[k].snapshot)
                   && Present(m, i, attempts[k].snapshot)
  }

  ghost predicate AllSurvive(before: Entries, m: Entries, attempts: seq<Attempt>) {
    forall i, t :: Present(before, i, t) ==> Survives(m, i, t, attempts)
  }

  lemma OneMoreAttempt(before: Entries, a: Entries, b: Entries, attempts: seq<Attempt>, next: Attempt)
    requires AllSurvive(before, a, attempts) && Keeps(next.snapshot, a, b)
    ensures AllSurvive(before, b, attempts + [next])
  {
    var more := attempts + [next];
    assert more[|attempts|] == next;
    forall i, t | Present(before, i, t)
      ensures Survives(b, i, t, more)
    {
      if Present(a, i, t) {
        assert Held(next.snapshot, b, i, t);
      } else {
        var k :| 0 <= k < |attempts| && Matches(attempts[k].snapshot, attempts[k].snapshot)
                 && Present(a, i, attempts[k].snapshot);
        assert more[k] == attempts[k] && Held(next.snapshot, b, i, more[k].snapshot);
      }
    }
  }

  /** One attempt from a given disk, cut off in any of the states it passes through. */
  method CutOff(from: Entries, attempt: Attempt) returns (left: Entries)
    ensures Keeps(attempt.snapshot, from, left)
  {
    var disk := new Disk(from);
    var _, _ := SyncTargets(disk, attempt.n, attempt.txn, attempt.snapshot);
    var k: nat :| k < |disk.trace|;
    left := disk.trace[k];
  }

  /**
   Any number of attempts, of any sources to any targets, each of them cut off in any of its states, half-finished
   ones too, with the next one starting from there: no tree that was at a target or in a backup at first is lost.
   */
  method CrashAndRerun(before: Entries, attempts: seq<Attempt>) returns (now: Entries)
    ensures AllSurvive(before, now, attempts)
  {
    now := before;
    for k := 0 to |attempts|
      invariant AllSurvive(before, now, attempts[..k])
    {
      var left := CutOff(now, attempts[k]);
      OneMoreAttempt(before, now, left, attempts[..k], attempts[k]);
      assert attempts[..k] + [attempts[k]] == attempts[..k + 1];
      now := left;
    }
    assert attempts[..|attempts|] == attempts;
  }
}
