/**
 * What removing a root costs: exactly when a task ends ahead of its catalog row,
 * and exactly when work is forgotten.
 */
module RemovalCost {
  import opened Basics
  import opened Catalog
  import opened Paths
  import opened Queue
  import opened QueueInvariant
  import opened QueueLeases
  import opened QueueProducers
  import opened Anchors
  import opened QueueLanding
  import opened QueueFence
  import opened QueueRemoval

  /** A removal keeps the invariant, lowers no generation and makes nothing visible. */
  lemma RemovalKeeps(db: Db, prefix: Path, children: seq<Child>, paths: seq<Path>, priority: int, limit: nat)
    requires Inv(db, limit)
    ensures var after := After(db, RemovePrefix(db, prefix, children, paths, priority));
      Inv(after, limit) && Grows(db.files, after.files) && Quiet(db.files, after.files)
  {
    if RemovePrefix(db, prefix, children, paths, priority).Committed? {
      ExpandAllKeeps(db, children, priority, limit);
      var mid := Expanded(db, children, priority);
      FenceAllKeepsInv(mid, paths, priority, limit);
      FenceAllFrame(mid, paths, priority);
    }
  }

  lemma {:induction false} FenceAllFrame(db: Db, paths: seq<Path>, priority: int)
    requires UniqueSlots(db.tasks) && FenceAll(db, paths, priority).Committed?
    ensures FenceAll(db, paths, priority).db.files == db.files && FenceAll(db, paths, priority).db.dead == db.dead
    decreases |paths|
  {
    if paths != [] {
      FenceUntouched(db, paths[0], priority, paths[0]);
      FenceAllFrame(FencePath(db, paths[0], priority).db, paths[1..], priority);
    }
  }

  // -------------------------------------------------------------- the generation fence

  /**
   * At a path the catalog does not list, the pending row is anchored to a
   * catalog row elsewhere that even the removal leaves behind the path's work.
   */
  ghost predicate OutrunsAt(db: Db, prefix: Path, p: Path) {
    Inside(prefix, p) && FileAt(db.files, p).None? && exists q :: OutrunBy(db, prefix, p, q)
  }

  ghost predicate OutrunBy(db: Db, prefix: Path, p: Path, q: nat) {
    InSlot(db.tasks, q, p, Pending) && db.tasks[q].fileId.Some? && db.tasks[q].fileId.value in db.files
    && RaisedGeneration(db.files, prefix, db.tasks[q].fileId.value) <= NewestActive(db.tasks, p)
  }

  function RaisedGeneration(files: map<nat, File>, prefix: Path, f: nat): int
    requires f in files
  {
    files[f].generation + if Inside(prefix, files[f].path) then 1 else 0
  }

  lemma ExpandedGeneration(db: Db, prefix: Path, children: seq<Child>, paths: seq<Path>, priority: int, limit: nat)
    requires Removing(db, prefix, children, paths, priority, limit)
    ensures var after := Expanded(db, children, priority).files;
      after.Keys == db.files.Keys && forall f :: f in db.files ==>
        after[f].generation == RaisedGeneration(db.files, prefix, f)
  {
    ListingIsApart(db, prefix, children, paths, priority, limit);
    ExpandAllRaises(db, children, priority);
  }

  lemma SameRenewal(db: Db, mid: Db, prefix: Path, p: Path)
    requires UntouchedAt(db.tasks, mid.tasks, p) && mid.files.Keys == db.files.Keys
    requires forall f :: f in db.files ==> mid.files[f].generation == RaisedGeneration(db.files, prefix, f)
    requires FileAt(db.files, p).None? && FileAt(mid.files, p).None? && Inside(prefix, p)
    ensures NeedsSuccessor(mid, p) && RenewsAnchored(mid, p) <==> OutrunsAt(db, prefix, p)
  {
    SameFences(db.tasks, mid.tasks, p);
    forall q
      ensures Renews(mid, p, q) <==> OutrunBy(db, prefix, p, q)
      ensures Renews(mid, p, q) ==> RunnableAt(mid.tasks, p, q)
    {
    }
  }

  lemma SameAnchored(a: Db, b: Db, p: Path)
    requires UntouchedAt(a.tasks, b.tasks, p) && a.files == b.files
    ensures AnchoredAt(a, p) <==> AnchoredAt(b, p)
  {
  }

  lemma AnchoredAfter(mid: Db, prefix: Path, paths: seq<Path>, priority: int, p: Path)
    requires UniqueSlots(mid.tasks) && priority >= 0 && Groups(mid.tasks, prefix, paths) && "" !in paths
      && AnchoredAt(mid, p)
    ensures FenceAll(mid, paths, priority).Committed?
    ensures AnchoredAt(FenceAll(mid, paths, priority).db, p)
      <==> !(Inside(prefix, p) && NeedsSuccessor(mid, p) && RenewsAnchored(mid, p))
  {
    var after := FenceAll(mid, paths, priority);
    if p in paths {
      var at := FenceAllAt(mid, paths, priority, p);
      SameAnchored(mid, at, p);
      FenceAnchors(at, p, priority);
      SameFences(mid.tasks, at.tasks, p);
      SameRenewals(mid, at, p);
      FenceAllFrame(mid, paths, priority);
      FenceUntouched(at, p, priority, p);
      SameAnchored(FencePath(at, p, priority).db, after.db, p);
    } else {
      FenceAllUntouched(mid, paths, priority, p);
      SameAnchored(mid, after.db, p);
      if Inside(prefix, p) {
        assert !ActiveAt(mid.tasks, p);
        assert !HasRunnable(mid.tasks, p);
      }
    }
  }

  lemma SameRenewals(a: Db, b: Db, p: Path)
    requires UntouchedAt(a.tasks, b.tasks, p) && a.files == b.files
    ensures RenewsAnchored(a, p) <==> RenewsAnchored(b, p)
  {
    SameFences(a.tasks, b.tasks, p);
    forall q
      ensures Renews(a, p, q) <==> Renews(b, p, q)
    {
    }
  }

  /** At a path, the generation fence survives a removal exactly when no pending row there outruns its anchor. */
  lemma RemovalAnchorsAt(
    db: Db, prefix: Path, children: seq<Child>, paths: seq<Path>, priority: int, limit: nat, p: Path)
    requires Removing(db, prefix, children, paths, priority, limit) && AnchoredAt(db, p)
    ensures RemovePrefix(db, prefix, children, paths, priority).Committed?
    ensures AnchoredAt(RemovePrefix(db, prefix, children, paths, priority).db, p) <==> !OutrunsAt(db, prefix, p)
  {
    RemovalSteps(db, prefix, children, paths, priority, limit);
    ExpandAllKeeps(db, children, priority, limit);
    var mid := Expanded(db, children, priority);
    ExpansionFollows(db, children, priority, limit);
    FollowsAnchors(db, mid, p);
    AnchoredAfter(mid, prefix, paths, priority, p);
    if Inside(prefix, p) && FileAt(db.files, p).None? {
      UnlistedIsUntouched(db, prefix, children, paths, priority, limit, p);
      ExpandedGeneration(db, prefix, children, paths, priority, limit);
      SameRenewal(db, mid, prefix, p);
    }
  }

  /** Everywhere at once, dead letters included. */
  lemma RemovalAnchors(db: Db, prefix: Path, children: seq<Child>, paths: seq<Path>, priority: int, limit: nat)
    requires Removing(db, prefix, children, paths, priority, limit) && AllAnchored(db)
    ensures RemovePrefix(db, prefix, children, paths, priority).Committed?
    ensures AllAnchored(RemovePrefix(db, prefix, children, paths, priority).db)
      <==> !(exists p :: OutrunsAt(db, prefix, p))
  {
    RemovalSteps(db, prefix, children, paths, priority, limit);
    ExpandAllKeeps(db, children, priority, limit);
    var mid := Expanded(db, children, priority);
    var after := FenceAll(mid, paths, priority).db;
    FenceAllFrame(mid, paths, priority);
    AnchoredEverywhere(db);
    forall p
      ensures AnchoredAt(after, p) <==> !OutrunsAt(db, prefix, p)
    {
      RemovalAnchorsAt(db, prefix, children, paths, priority, limit, p);
    }
    AnchoredEverywhere(after);
  }

  lemma AnchoredEverywhere(db: Db)
    ensures (forall i :: i in db.tasks ==> AnchorOk(db.tasks[i], db.files)) <==> forall p :: AnchoredAt(db, p)
  {
    forall i | i in db.tasks && AnchoredAt(db, db.tasks[i].path)
      ensures AnchorOk(db.tasks[i], db.files)
    {
    }
  }

  // -------------------------------------------------------------------- lost work

  /**
   * Two parked rows of different age at one path, and nothing as new as the
   * newer one: no pending, running or dead row, and no remove raised to it.
   */
  ghost predicate ForgottenAt(db: Db, p: Path) {
    exists a, b :: ParkedAt(db.tasks, p, a) && ParkedAt(db.tasks, p, b)
      && db.tasks[a].generation > db.tasks[b].generation
      && !Stands(db.tasks, p, db.tasks[a].generation) && !Replaced(db, p, db.tasks[a].generation)
  }

  /** The removal itself leaves something as new pending at the path. */
  ghost predicate Replaced(db: Db, p: Path, generation: int) {
    var listed := FileAt(db.files, p);
    if listed.Some? && listed.value in db.files then db.files[listed.value].generation + 1 >= generation
    else HasRunnable(db.tasks, p)
  }

  lemma RaisedStands(before: map<nat, Task>, after: map<nat, Task>, p: Path, generation: int, q: nat, g: int)
    requires Raised(before, after, p, generation, q)
    ensures Stands(after, p, g) <==> Stands(before, p, g) || generation >= g
  {
    RaisedBeats(before, after, p, generation, q, g - 1);
    assert RunnableAt(after, p, q);
    if after[q].generation >= g {
      assert StandsBy(after, p, g, q);
    }
    if k :| InSlot(before, k, p, Pending) && before[k].generation > g - 1 {
      assert RunnableAt(before, p, k) && StandsBy(before, p, g, k);
    }
    if j :| StandsBy(after, p, g, j) && j != q {
      assert RunnableAt(before, p, j) || before[j].state.Dead?;
      assert StandsBy(before, p, g, j);
    }
    if j :| StandsBy(before, p, g, j) {
      if j != q {
        assert RunnableAt(after, p, j) || after[j].state.Dead?;
        assert StandsBy(after, p, g, j);
      } else {
        assert Outranked(before, p, g - 1);
      }
    }
  }

  lemma RaisedForgets(db: Db, mid: Db, p: Path, q: nat)
    requires UniquePaths(db.files) && FileAt(db.files, p).Some? && FileAt(db.files, p).value in db.files
    requires Raised(db.tasks, mid.tasks, p, db.files[FileAt(db.files, p).value].generation + 1, q)
    ensures ForgetsNewest(mid.tasks, p) <==> ForgottenAt(db, p)
  {
    var generation := db.files[FileAt(db.files, p).value].generation + 1;
    forall a
      ensures ParkedAt(mid.tasks, p, a) <==> ParkedAt(db.tasks, p, a)
      ensures ParkedAt(db.tasks, p, a) ==> mid.tasks[a] == db.tasks[a]
    {
    }
    forall g
      ensures Stands(mid.tasks, p, g) <==> Stands(db.tasks, p, g) || generation >= g
    {
      RaisedStands(db.tasks, mid.tasks, p, generation, q, g);
    }
    if ForgetsNewest(mid.tasks, p) {
      var a, b :| ParkedAt(mid.tasks, p, a) && ParkedAt(mid.tasks, p, b)
        && mid.tasks[a].generation > mid.tasks[b].generation
        && !Stands(mid.tasks, p, mid.tasks[a].generation);
      assert ParkedAt(db.tasks, p, a) && ParkedAt(db.tasks, p, b) && !Replaced(db, p, db.tasks[a].generation);
    }
    if ForgottenAt(db, p) {
      var a, b :| ParkedAt(db.tasks, p, a) && ParkedAt(db.tasks, p, b)
        && db.tasks[a].generation > db.tasks[b].generation
        && !Stands(db.tasks, p, db.tasks[a].generation) && !Replaced(db, p, db.tasks[a].generation);
      assert ParkedAt(mid.tasks, p, a) && ParkedAt(mid.tasks, p, b);
    }
  }

  /** What a fence after the expansion forgets, read off the state before. */
  lemma ForgottenAfter(db: Db, prefix: Path, children: seq<Child>, paths: seq<Path>, priority: int, limit: nat, p: Path)
    requires Removing(db, prefix, children, paths, priority, limit) && Inside(prefix, p)
    ensures var mid := Expanded(db, children, priority);
      ForgetsNewest(mid.tasks, p) && !NeedsSuccessor(mid, p) <==> ForgottenAt(db, p)
  {
    var mid := Expanded(db, children, priority);
    RemovalSteps(db, prefix, children, paths, priority, limit);
    if FileAt(db.files, p).Some? {
      ExpandedSlots(db, children, priority, limit);
      var q := ListedIsRaised(db, prefix, children, paths, priority, limit, FileAt(db.files, p).value);
      RaisedForgets(db, mid, p, q);
    } else {
      UnlistedIsUntouched(db, prefix, children, paths, priority, limit, p);
      SameFences(db.tasks, mid.tasks, p);
      UnlistedForgets(db, p);
    }
  }

  lemma UnlistedForgets(db: Db, p: Path)
    requires FileAt(db.files, p).None?
    ensures ForgottenAt(db, p) <==> ForgetsNewest(db.tasks, p) && !HasRunnable(db.tasks, p)
  {
    if ForgetsNewest(db.tasks, p) && !HasRunnable(db.tasks, p) {
      var a, b :| ParkedAt(db.tasks, p, a) && ParkedAt(db.tasks, p, b)
        && db.tasks[a].generation > db.tasks[b].generation
        && !Stands(db.tasks, p, db.tasks[a].generation);
      assert !Replaced(db, p, db.tasks[a].generation);
    }
  }

  lemma SameLosses(a: map<nat, Task>, b: map<nat, Task>, c: map<nat, Task>, d: map<nat, Task>, p: Path)
    requires UntouchedAt(a, b, p) && UntouchedAt(c, d, p)
    ensures LosesNothingAt(b, c, p) <==> LosesNothingAt(a, d, p)
  {
    forall t: Task | t.path == p
      ensures Survives(t, c) <==> Survives(t, d)
    {
      if j :| j in c && c[j].path == t.path && c[j].generation >= t.generation {
        assert j in d;
      }
      if j :| j in d && d[j].path == t.path && d[j].generation >= t.generation {
        assert j in c;
      }
    }
  }

  lemma LossesAfter(mid: Db, prefix: Path, paths: seq<Path>, priority: int, p: Path)
    requires UniqueSlots(mid.tasks) && priority >= 0 && Groups(mid.tasks, prefix, paths) && "" !in paths
    ensures FenceAll(mid, paths, priority).Committed?
    ensures LosesNothingAt(mid.tasks, FenceAll(mid, paths, priority).db.tasks, p)
      <==> !(Inside(prefix, p) && ForgetsNewest(mid.tasks, p) && !NeedsSuccessor(mid, p))
  {
    var after := FenceAll(mid, paths, priority);
    if p in paths {
      var at := FenceAllAt(mid, paths, priority, p);
      FenceForgets(at, p, priority);
      SameFences(mid.tasks, at.tasks, p);
      SameLosses(mid.tasks, at.tasks, FencePath(at, p, priority).db.tasks, after.db.tasks, p);
    } else {
      FenceAllUntouched(mid, paths, priority, p);
      if Inside(prefix, p) {
        assert !ActiveAt(mid.tasks, p);
        assert !ForgetsNewest(mid.tasks, p);
      }
    }
  }

  /** Rows that only gained generations were lost exactly if what became of them was. */
  lemma LossesBefore(db: Db, mid: Db, after: map<nat, Task>, p: Path, q: nat, generation: int)
    requires Raised(db.tasks, mid.tasks, p, generation, q) && q in after && after[q].path == p
    requires after[q].generation >= mid.tasks[q].generation
    ensures LosesNothingAt(db.tasks, after, p) <==> LosesNothingAt(mid.tasks, after, p)
  {
    RaisedBeats(db.tasks, mid.tasks, p, generation, q, generation - 1);
    forall i | i in db.tasks && db.tasks[i].path == p && !db.tasks[i].state.Done?
      ensures Survives(db.tasks[i], after) <==> i in mid.tasks && Survives(mid.tasks[i], after)
    {
      if i == q {
        assert mid.tasks[q].generation >= db.tasks[q].generation;
      }
    }
  }

  /** A pending row outlives every fence. */
  lemma PendingStays(mid: Db, paths: seq<Path>, priority: int, p: Path, q: nat)
    requires UniqueSlots(mid.tasks) && priority >= 0 && "" !in paths && NoDuplicates(paths)
      && InSlot(mid.tasks, q, p, Pending)
    ensures FenceAll(mid, paths, priority).Committed?
    ensures var after := FenceAll(mid, paths, priority).db.tasks;
      q in after && after[q].path == p && after[q].generation >= mid.tasks[q].generation
  {
    if p in paths {
      var at := FenceAllAt(mid, paths, priority, p);
      assert RunnableAt(at.tasks, p, q);
      FenceIs(at, p, priority);
      RetiredRows(at, p);
      EnqueueRowsStay(RetiredDb(at, p), Removal(p, NewestActive(at.tasks, p) + 1, priority));
    } else {
      FenceAllUntouched(mid, paths, priority, p);
    }
  }

  lemma RemovalLosesAt(db: Db, prefix: Path, children: seq<Child>, paths: seq<Path>, priority: int, limit: nat, p: Path)
    requires Removing(db, prefix, children, paths, priority, limit)
    ensures RemovePrefix(db, prefix, children, paths, priority).Committed?
    ensures LosesNothingAt(db.tasks, RemovePrefix(db, prefix, children, paths, priority).db.tasks, p)
      <==> !(Inside(prefix, p) && ForgottenAt(db, p))
  {
    RemovalSteps(db, prefix, children, paths, priority, limit);
    var mid := Expanded(db, children, priority);
    var after := FenceAll(mid, paths, priority).db.tasks;
    LossesAfter(mid, prefix, paths, priority, p);
    if Inside(prefix, p) {
      ForgottenAfter(db, prefix, children, paths, priority, limit, p);
    }
    if Inside(prefix, p) && FileAt(db.files, p).Some? {
      var f := FileAt(db.files, p).value;
      var q := ListedIsRaised(db, prefix, children, paths, priority, limit, f);
      PendingStays(mid, paths, priority, p, q);
      LossesBefore(db, mid, after, p, q, db.files[f].generation + 1);
    } else {
      UnlistedIsUntouched(db, prefix, children, paths, priority, limit, p);
      SameLosses(db.tasks, mid.tasks, after, after, p);
    }
  }

  /** A removal drops no work without an equal or newer row of its path, exactly where none is forgotten. */
  lemma RemovalForgets(db: Db, prefix: Path, children: seq<Child>, paths: seq<Path>, priority: int, limit: nat)
    requires Removing(db, prefix, children, paths, priority, limit)
    ensures RemovePrefix(db, prefix, children, paths, priority).Committed?
    ensures NothingLost(db.tasks, RemovePrefix(db, prefix, children, paths, priority).db.tasks)
      <==> !(exists p :: Inside(prefix, p) && ForgottenAt(db, p))
  {
    RemovalSteps(db, prefix, children, paths, priority, limit);
    var after := RemovePrefix(db, prefix, children, paths, priority).db.tasks;
    forall p
      ensures LosesNothingAt(db.tasks, after, p) <==> !(Inside(prefix, p) && ForgottenAt(db, p))
    {
      RemovalLosesAt(db, prefix, children, paths, priority, limit, p);
    }
    NothingLostEverywhere(db.tasks, after);
  }

  lemma NothingLostEverywhere(before: map<nat, Task>, after: map<nat, Task>)
    ensures NothingLost(before, after) <==> forall p :: LosesNothingAt(before, after, p)
  {
    forall i | i in before && !before[i].state.Done? && LosesNothingAt(before, after, before[i].path)
      ensures Survives(before[i], after)
    {
    }
  }
}
