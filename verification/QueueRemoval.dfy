/**
 * Removing a watch root in one transaction: every catalog row inside it is
 * raised and given a remove, and every path with active work is fenced.
 */
module QueueRemoval {
  import opened Basics
  import opened Catalog
  import opened Paths
  import opened Queue
  import opened QueueInvariant
  import opened QueueLeases
  import opened QueueProducers
  import opened QueueLanding
  import opened QueueFence

  ghost predicate ActiveAt(tasks: map<nat, Task>, p: Path) {
    exists i :: i in tasks && tasks[i].path == p && IsActive(tasks[i].state)
  }

  /** The paths inside the root that have active rows, in any order. */
  ghost predicate Groups(tasks: map<nat, Task>, prefix: Path, paths: seq<Path>) {
    NoDuplicates(paths) && forall p :: p in paths <==> Inside(prefix, p) && ActiveAt(tasks, p)
  }

  ghost function FenceAll(db: Db, paths: seq<Path>, priority: int): Outcome
    decreases |paths|
  {
    if paths == [] then Committed(db) else
    var first := FencePath(db, paths[0], priority);
    if first.RolledBack? then first else FenceAll(first.db, paths[1..], priority)
  }

  predicate ValidRemoval(prefix: Path, priority: int) {
    ValidDirectory(prefix) && priority >= 0
  }

  /** EnqueuePrefixRemovals. */
  ghost function RemovePrefix(db: Db, prefix: Path, children: seq<Child>, paths: seq<Path>, priority: int): Outcome {
    if !ValidRemoval(prefix, priority) then RolledBack(Rejected)
    else
      var expanded := ExpandAll(db, children, priority);
      if expanded.RolledBack? then expanded else FenceAll(expanded.db, paths, priority)
  }

  /** The children and the paths are what the transaction itself lists. */
  ghost predicate ListsFor(db: Db, prefix: Path, children: seq<Child>, paths: seq<Path>, priority: int) {
    ValidRemoval(prefix, priority) ==>
      && Lists(db.files, prefix, None, children)
      && (ExpandAll(db, children, priority).Committed? ==>
        Groups(ExpandAll(db, children, priority).db.tasks, prefix, paths))
  }

  // ------------------------------------------------------------------ the expansion

  /** What every lemma below is about: a removal over a sound store, with its own listings. */
  ghost predicate Removing(db: Db, prefix: Path, children: seq<Child>, paths: seq<Path>, priority: int, limit: nat) {
    Inv(db, limit) && ValidRemoval(prefix, priority) && ListsFor(db, prefix, children, paths, priority)
  }

  lemma {:induction false} ExpansionCommits(db: Db, children: seq<Child>, priority: int)
    requires Apart(db.files, children) && priority >= 0
    requires forall i :: 0 <= i < |children| ==>
      children[i].destination.None? && db.files[children[i].fileId].path != ""
        && db.files[children[i].fileId].generation >= 0
    ensures ExpandAll(db, children, priority).Committed?
    decreases |children|
  {
    if children != [] {
      ApartNext(db, children, priority);
      var mid := ExpandOne(db, children[0], priority).db;
      assert forall i :: 0 <= i < |children| - 1 ==> children[1..][i] == children[i + 1];
      ExpansionCommits(mid, children[1..], priority);
    }
  }

  ghost function Expanded(db: Db, children: seq<Child>, priority: int): Db {
    After(db, ExpandAll(db, children, priority))
  }

  lemma ListingIsApart(db: Db, prefix: Path, children: seq<Child>, paths: seq<Path>, priority: int, limit: nat)
    requires Removing(db, prefix, children, paths, priority, limit)
    ensures Apart(db.files, children) && ExpandAll(db, children, priority).Committed?
    ensures forall f :: f in db.files ==> (IsAmong(children, f) <==> Inside(prefix, db.files[f].path))
    ensures Groups(Expanded(db, children, priority).tasks, prefix, paths)
  {
    ListedApart(db.files, prefix, None, children);
    forall i | 0 <= i < |children|
      ensures children[i].destination.None? && Inside(prefix, db.files[children[i].fileId].path)
    {
      assert IsChild(db.files, prefix, None, children[i]);
    }
    ExpansionCommits(db, children, priority);
  }

  lemma ExpandedSlots(db: Db, children: seq<Child>, priority: int, limit: nat)
    requires Inv(db, limit)
    ensures UniqueSlots(Expanded(db, children, priority).tasks) && UniquePaths(db.files)
  {
    ExpandAllKeeps(db, children, priority, limit);
  }

  /** An expansion reaches one child's destination in a single step. */
  lemma {:induction false} ExpandAllAt(db: Db, children: seq<Child>, priority: int, i: nat) returns (mid: Db)
    requires UniqueSlots(db.tasks) && Apart(db.files, children) && i < |children|
    requires ExpandAll(db, children, priority).Committed?
    ensures UniqueSlots(mid.tasks) && children[i].fileId in mid.files
    ensures mid.files[children[i].fileId] == db.files[children[i].fileId]
    ensures UntouchedAt(db.tasks, mid.tasks, Destination(db.files, children[i]))
    ensures ExpandOne(mid, children[i], priority).Committed?
    ensures UntouchedAt(ExpandOne(mid, children[i], priority).db.tasks, ExpandAll(db, children, priority).db.tasks,
      Destination(db.files, children[i]))
    decreases |children|
  {
    var next := ExpandOne(db, children[0], priority).db;
    ExpandOneIs(db, children[0], priority);
    ApartNext(db, children, priority);
    ChildLands(db, children[0], priority);
    assert forall k :: 0 <= k < |children| - 1 ==> children[1..][k] == children[k + 1];
    if i == 0 {
      mid := db;
      ExpandAllUntouched(next, children[1..], priority, Destination(db.files, children[0]));
    } else {
      mid := ExpandAllAt(next, children[1..], priority, i - 1);
      UntouchedChain(db.tasks, next.tasks, mid.tasks, Destination(db.files, children[i]));
    }
  }

  /** The pending row an expansion leaves at a child's path, over the rows that were there. */
  ghost predicate Raised(before: map<nat, Task>, after: map<nat, Task>, p: Path, generation: int, q: nat) {
    && InSlot(after, q, p, Pending)
    && (q in before && before[q].path == p ==> before[q].state.Pending?)
    && (forall i :: InSlot(before, i, p, Pending) ==> i == q)
    && (forall i :: i in after && after[i].path == p && i != q ==> i in before && before[i] == after[i])
    && (forall i :: i in before && before[i].path == p && i != q ==> i in after && before[i] == after[i])
    && (if Outranked(before, p, generation)
        then InSlot(before, q, p, Pending) && after[q].op == before[q].op && after[q].generation == before[q].generation
        else after[q].op.Remove? && after[q].generation == generation)
  }

  lemma ChildRaises(db: Db, child: Child, priority: int) returns (q: nat)
    requires UniqueSlots(db.tasks) && child.destination.None? && ExpandOne(db, child, priority).Committed?
    ensures child.fileId in db.files
    ensures Raised(db.tasks, ExpandOne(db, child, priority).db.tasks, db.files[child.fileId].path,
      db.files[child.fileId].generation + 1, q)
  {
    var e := ChildRequest(db, child, priority);
    q := EnqueueShape(Bump(db, child.fileId), e);
    if q in db.tasks {
      forall i | InSlot(db.tasks, i, e.path, Pending)
        ensures i == q
      {
      }
    }
  }

  lemma RaisedBetween(
    a: map<nat, Task>, b: map<nat, Task>, c: map<nat, Task>, d: map<nat, Task>, p: Path, generation: int, q: nat)
    requires UntouchedAt(a, b, p) && Raised(b, c, p, generation, q) && UntouchedAt(c, d, p)
    ensures Raised(a, d, p, generation, q)
  {
    assert forall i :: InSlot(a, i, p, Pending) <==> InSlot(b, i, p, Pending);
    assert Outranked(a, p, generation) <==> Outranked(b, p, generation) by {
      if i :| InSlot(a, i, p, Pending) && a[i].generation > generation {
        assert InSlot(b, i, p, Pending) && b[i].generation > generation;
      }
      if i :| InSlot(b, i, p, Pending) && b[i].generation > generation {
        assert InSlot(a, i, p, Pending) && a[i].generation > generation;
      }
    }
  }

  /** Inside the root, each listed path gets its remove, or keeps newer pending work. */
  lemma ListedIsRaised(db: Db, prefix: Path, children: seq<Child>, paths: seq<Path>, priority: int, limit: nat, f: nat)
    returns (q: nat)
    requires Removing(db, prefix, children, paths, priority, limit) && f in db.files && Inside(prefix, db.files[f].path)
    ensures Raised(db.tasks, Expanded(db, children, priority).tasks, db.files[f].path, db.files[f].generation + 1, q)
  {
    ListingIsApart(db, prefix, children, paths, priority, limit);
    var i :| 0 <= i < |children| && children[i].fileId == f;
    assert IsChild(db.files, prefix, None, children[i]);
    q := ChildIsRaised(db, children, priority, i);
  }

  lemma ChildIsRaised(db: Db, children: seq<Child>, priority: int, i: nat) returns (q: nat)
    requires UniqueSlots(db.tasks) && Apart(db.files, children) && i < |children| && children[i].destination.None?
    requires ExpandAll(db, children, priority).Committed?
    ensures Raised(db.tasks, ExpandAll(db, children, priority).db.tasks, db.files[children[i].fileId].path,
      db.files[children[i].fileId].generation + 1, q)
  {
    var file := db.files[children[i].fileId];
    var mid := ExpandAllAt(db, children, priority, i);
    q := ChildRaises(mid, children[i], priority);
    RaisedBetween(db.tasks, mid.tasks, ExpandOne(mid, children[i], priority).db.tasks,
      ExpandAll(db, children, priority).db.tasks,
      file.path, file.generation + 1, q);
  }

  /** Paths without a catalog row inside the root are left to the fence. */
  lemma UnlistedIsUntouched(
    db: Db, prefix: Path, children: seq<Child>, paths: seq<Path>, priority: int, limit: nat, p: Path)
    requires Removing(db, prefix, children, paths, priority, limit) && (FileAt(db.files, p).None? || !Inside(prefix, p))
    ensures UntouchedAt(db.tasks, Expanded(db, children, priority).tasks, p)
  {
    ListingIsApart(db, prefix, children, paths, priority, limit);
    forall i | 0 <= i < |children|
      ensures Destination(db.files, children[i]) != p
    {
      assert IsChild(db.files, prefix, None, children[i]);
      FileAtIs(db.files, children[i].fileId);
    }
    ExpandAllUntouched(db, children, priority, p);
  }

  // ---------------------------------------------------------------- all the fences

  lemma {:induction false} FenceAllUntouched(db: Db, paths: seq<Path>, priority: int, p: Path)
    requires UniqueSlots(db.tasks) && priority >= 0 && "" !in paths && p !in paths
    ensures FenceAll(db, paths, priority).Committed?
    ensures UniqueSlots(FenceAll(db, paths, priority).db.tasks)
    ensures FenceAll(db, paths, priority).db.files == db.files && FenceAll(db, paths, priority).db.dead == db.dead
    ensures UntouchedAt(db.tasks, FenceAll(db, paths, priority).db.tasks, p)
    decreases |paths|
  {
    if paths != [] {
      assert paths[0] in paths && forall q :: q in paths[1..] ==> q in paths;
      FenceFences(db, paths[0], priority);
      var next := FencePath(db, paths[0], priority).db;
      FenceUntouched(db, paths[0], priority, p);
      FenceAllUntouched(next, paths[1..], priority, p);
      UntouchedChain(db.tasks, next.tasks, FenceAll(db, paths, priority).db.tasks, p);
    }
  }

  /** The fences reach one path in a single step. */
  lemma {:induction false} FenceAllAt(db: Db, paths: seq<Path>, priority: int, p: Path) returns (mid: Db)
    requires UniqueSlots(db.tasks) && priority >= 0 && "" !in paths && NoDuplicates(paths) && p in paths
    ensures FenceAll(db, paths, priority).Committed?
    ensures UniqueSlots(mid.tasks) && mid.files == db.files && mid.dead == db.dead
      && UntouchedAt(db.tasks, mid.tasks, p)
    ensures FencePath(mid, p, priority).Committed?
    ensures UntouchedAt(FencePath(mid, p, priority).db.tasks, FenceAll(db, paths, priority).db.tasks, p)
    decreases |paths|
  {
    assert paths[0] in paths && forall q :: q in paths[1..] ==> q in paths;
    FenceFences(db, paths[0], priority);
    var next := FencePath(db, paths[0], priority).db;
    FenceUntouched(db, paths[0], priority, p);
    if paths[0] == p {
      mid := db;
      assert p !in paths[1..];
      FenceAllUntouched(next, paths[1..], priority, p);
    } else {
      mid := FenceAllAt(next, paths[1..], priority, p);
      UntouchedChain(db.tasks, next.tasks, mid.tasks, p);
    }
  }

  lemma {:induction false} FenceAllKeepsInv(db: Db, paths: seq<Path>, priority: int, limit: nat)
    requires Inv(db, limit) && FenceAll(db, paths, priority).Committed?
    ensures Inv(FenceAll(db, paths, priority).db, limit)
    decreases |paths|
  {
    if paths != [] {
      FenceKeepsInv(db, paths[0], priority, limit);
      FenceAllKeepsInv(FencePath(db, paths[0], priority).db, paths[1..], priority, limit);
    }
  }

  // ------------------------------------------------------- what one path's rows decide

  lemma SameFences(a: map<nat, Task>, b: map<nat, Task>, p: Path)
    requires UntouchedAt(a, b, p)
    ensures Fenced(a, p) <==> Fenced(b, p)
    ensures RunnableFenced(a, p) <==> RunnableFenced(b, p)
    ensures HasRunnable(a, p) <==> HasRunnable(b, p)
    ensures ForgetsNewest(a, p) <==> ForgetsNewest(b, p)
    ensures NewestActive(a, p) == NewestActive(b, p)
  {
    SameFencesOneWay(a, b, p);
    SameFencesOneWay(b, a, p);
    assert ActiveRows(a, p) == ActiveRows(b, p);
  }

  lemma SameFencesOneWay(a: map<nat, Task>, b: map<nat, Task>, p: Path)
    requires UntouchedAt(a, b, p)
    ensures Fenced(a, p) ==> Fenced(b, p)
    ensures RunnableFenced(a, p) ==> RunnableFenced(b, p)
    ensures HasRunnable(a, p) ==> HasRunnable(b, p)
    ensures ForgetsNewest(a, p) ==> ForgetsNewest(b, p)
  {
    forall i | i in a && a[i].path == p && Outrun(a, p, i)
      ensures Outrun(b, p, i)
    {
      var q :| InSlot(a, q, p, Pending) && a[q].op.Remove? && (i == q || a[i].generation < a[q].generation);
      assert InSlot(b, q, p, Pending);
    }
    if i :| RunnableAt(a, p, i) {
      assert RunnableAt(b, p, i);
    }
    if ForgetsNewest(a, p) {
      var i, j :| ParkedAt(a, p, i) && ParkedAt(a, p, j) && a[i].generation > a[j].generation
        && !Stands(a, p, a[i].generation);
      assert ParkedAt(b, p, i) && ParkedAt(b, p, j);
      forall k | StandsBy(b, p, b[i].generation, k)
        ensures StandsBy(a, p, a[i].generation, k)
      {
        assert RunnableAt(b, p, k) ==> RunnableAt(a, p, k);
      }
    }
  }

  // ----------------------------------------------------------------- running work

  /**
   * At a path the catalog lists, no pending work other than a remove is ahead
   * of the raised row, and whatever is running is behind the raised row or
   * behind the pending one.
   */
  ghost predicate RemoveCanStand(db: Db, p: Path) {
    var listed := FileAt(db.files, p);
    listed.Some? && listed.value in db.files ==>
      var raised := db.files[listed.value].generation + 1;
      && (forall q :: InSlot(db.tasks, q, p, Pending) && db.tasks[q].generation > raised ==> db.tasks[q].op.Remove?)
      && (forall i :: InSlot(db.tasks, i, p, InFlight) ==>
            db.tasks[i].generation < raised || Outranked(db.tasks, p, db.tasks[i].generation))
  }

  lemma RaisedFences(before: map<nat, Task>, after: map<nat, Task>, p: Path, generation: int, q: nat)
    requires Raised(before, after, p, generation, q) && UniqueSlots(after)
    ensures RunnableFenced(after, p) <==>
      && (forall k :: InSlot(before, k, p, Pending) && before[k].generation > generation ==> before[k].op.Remove?)
      && (forall i :: InSlot(before, i, p, InFlight) ==>
        before[i].generation < generation || Outranked(before, p, before[i].generation))
  {
    assert RunnableAt(after, p, q);
    forall k | InSlot(after, k, p, Pending)
      ensures k == q
    {
    }
    forall i | RunnableAt(after, p, i)
      ensures Outrun(after, p, i) <==> after[q].op.Remove? && (i == q || after[i].generation < after[q].generation)
      ensures i != q ==> InSlot(before, i, p, InFlight) && before[i] == after[i]
    {
    }
    forall i | InSlot(before, i, p, InFlight)
      ensures RunnableAt(after, p, i) && after[i] == before[i] && i != q
      ensures before[i].generation < after[q].generation
        <==> before[i].generation < generation || Outranked(before, p, before[i].generation)
    {
      RaisedBeats(before, after, p, generation, q, before[i].generation);
    }
  }

  lemma RaisedBeats(before: map<nat, Task>, after: map<nat, Task>, p: Path, generation: int, q: nat, g: int)
    requires Raised(before, after, p, generation, q)
    ensures g < after[q].generation <==> g < generation || Outranked(before, p, g)
  {
    if InSlot(before, q, p, Pending) {
      assert before[q].generation > g ==> Outranked(before, p, g);
      assert before[q].generation > generation ==> Outranked(before, p, generation);
    }
    assert forall k :: InSlot(before, k, p, Pending) ==> k == q;
  }

  /** After the expansion alone. */
  lemma ListedCanStand(db: Db, prefix: Path, children: seq<Child>, paths: seq<Path>, priority: int, limit: nat, p: Path)
    requires Removing(db, prefix, children, paths, priority, limit) && Inside(prefix, p) && FileAt(db.files, p).Some?
    ensures RunnableFenced(Expanded(db, children, priority).tasks, p) <==> RemoveCanStand(db, p)
  {
    var f := FileAt(db.files, p).value;
    ExpandedSlots(db, children, priority, limit);
    var q := ListedIsRaised(db, prefix, children, paths, priority, limit, f);
    RaisedCanStand(db, Expanded(db, children, priority).tasks, p, f, q);
  }

  lemma RaisedCanStand(db: Db, after: map<nat, Task>, p: Path, f: nat, q: nat)
    requires FileAt(db.files, p) == Some(f) && f in db.files && UniqueSlots(after)
    requires Raised(db.tasks, after, p, db.files[f].generation + 1, q)
    ensures RunnableFenced(after, p) <==> RemoveCanStand(db, p)
  {
    RaisedFences(db.tasks, after, p, db.files[f].generation + 1, q);
  }

  /** What a removal does, step by step. */
  lemma RemovalSteps(db: Db, prefix: Path, children: seq<Child>, paths: seq<Path>, priority: int, limit: nat)
    requires Removing(db, prefix, children, paths, priority, limit)
    ensures var mid := Expanded(db, children, priority);
      && UniqueSlots(mid.tasks) && Groups(mid.tasks, prefix, paths) && "" !in paths && priority >= 0
      && FenceAll(mid, paths, priority).Committed?
      && RemovePrefix(db, prefix, children, paths, priority) == FenceAll(mid, paths, priority)
      && forall p :: FileAt(mid.files, p).Some? <==> FileAt(db.files, p).Some?
  {
    ListingIsApart(db, prefix, children, paths, priority, limit);
    ExpandedSlots(db, children, priority, limit);
    var mid := Expanded(db, children, priority);
    PathsAreNonempty(mid.tasks, prefix, paths);
    FenceAllUntouched(mid, paths, priority, "");
    forall p
      ensures FileAt(mid.files, p).Some? <==> FileAt(db.files, p).Some?
    {
      SameListing(db, children, priority, p);
    }
  }

  /**
   * Once a root has been removed, whatever is still active at a path inside it
   * has a strictly newer remove pending behind it, exactly where the catalog
   * did not trail the work.
   */
  lemma RemovalFences(db: Db, prefix: Path, children: seq<Child>, paths: seq<Path>, priority: int, limit: nat, p: Path)
    requires Removing(db, prefix, children, paths, priority, limit) && Inside(prefix, p)
    ensures RemovePrefix(db, prefix, children, paths, priority).Committed?
    ensures Fenced(RemovePrefix(db, prefix, children, paths, priority).db.tasks, p) <==> RemoveCanStand(db, p)
  {
    RemovalSteps(db, prefix, children, paths, priority, limit);
    FencedAfter(Expanded(db, children, priority), prefix, paths, priority, p);
    if FileAt(db.files, p).Some? {
      ListedCanStand(db, prefix, children, paths, priority, limit, p);
    }
  }

  lemma PathsAreNonempty(tasks: map<nat, Task>, prefix: Path, paths: seq<Path>)
    requires Groups(tasks, prefix, paths)
    ensures "" !in paths
  {
  }

  /** Raising rows moves none of them. */
  lemma SameListing(db: Db, children: seq<Child>, priority: int, p: Path)
    requires Apart(db.files, children) && ExpandAll(db, children, priority).Committed? && UniquePaths(db.files)
    ensures FileAt(Expanded(db, children, priority).files, p) == FileAt(db.files, p)
    ensures FileAt(db.files, p).Some? ==> FileAt(db.files, p).value in db.files
  {
    ExpandAllRaises(db, children, priority);
    SamePathsListed(db.files, Expanded(db, children, priority).files, p);
  }

  lemma SamePathsListed(before: map<nat, File>, after: map<nat, File>, p: Path)
    requires UniquePaths(before) && after.Keys == before.Keys
    requires forall f :: f in before ==> after[f].path == before[f].path
    ensures FileAt(after, p) == FileAt(before, p) && (FileAt(before, p).Some? ==> FileAt(before, p).value in before)
  {
    if f :| f in before && before[f].path == p {
      FileAtIs(before, f);
      FileAtIs(after, f);
    }
  }

  lemma FencedAfter(mid: Db, prefix: Path, paths: seq<Path>, priority: int, p: Path)
    requires UniqueSlots(mid.tasks) && priority >= 0 && Groups(mid.tasks, prefix, paths) && "" !in paths
      && Inside(prefix, p)
    ensures FenceAll(mid, paths, priority).Committed?
    ensures Fenced(FenceAll(mid, paths, priority).db.tasks, p)
      <==> (FileAt(mid.files, p).Some? ==> RunnableFenced(mid.tasks, p))
  {
    if p in paths {
      var at := FenceAllAt(mid, paths, priority, p);
      FenceFences(at, p, priority);
      SameFences(mid.tasks, at.tasks, p);
      SameFences(FencePath(at, p, priority).db.tasks, FenceAll(mid, paths, priority).db.tasks, p);
    } else {
      FenceAllUntouched(mid, paths, priority, p);
      SameFences(mid.tasks, FenceAll(mid, paths, priority).db.tasks, p);
      assert !ActiveAt(mid.tasks, p);
      assert RunnableFenced(mid.tasks, p) && Fenced(mid.tasks, p);
    }
  }

  /** Where no pending or running row runs ahead of the path's own catalog row, the remove stands. */
  lemma OwnWorkIsFenced(db: Db, p: Path)
    requires AnchoredAt(db, p)
    requires forall i :: RunnableAt(db.tasks, p, i) ==> db.tasks[i].fileId == FileAt(db.files, p)
    ensures RemoveCanStand(db, p)
  {
    forall i | RunnableAt(db.tasks, p, i) && FileAt(db.files, p).Some?
      ensures db.tasks[i].generation <= db.files[FileAt(db.files, p).value].generation
    {
      assert AnchorOk(db.tasks[i], db.files);
    }
    assert forall i :: InSlot(db.tasks, i, p, Pending) || InSlot(db.tasks, i, p, InFlight) ==>
      RunnableAt(db.tasks, p, i);
  }

  /** Nothing outside the root changes, and every catalog row inside it is hidden and raised by one. */
  lemma RemovalIsConfined(db: Db, prefix: Path, children: seq<Child>, paths: seq<Path>, priority: int, limit: nat)
    requires Removing(db, prefix, children, paths, priority, limit)
    ensures RemovePrefix(db, prefix, children, paths, priority).Committed?
    ensures var after := RemovePrefix(db, prefix, children, paths, priority).db;
      && after.dead == db.dead && after.files.Keys == db.files.Keys
      && (forall f :: f in db.files ==> after.files[f] == if Inside(prefix, db.files[f].path)
        then Bump(db, f).files[f] else db.files[f])
      && (forall p :: !Inside(prefix, p) ==> UntouchedAt(db.tasks, after.tasks, p))
  {
    ListingIsApart(db, prefix, children, paths, priority, limit);
    ExpandAllRaises(db, children, priority);
    RemovalSteps(db, prefix, children, paths, priority, limit);
    var mid := Expanded(db, children, priority);
    FenceAllUntouched(mid, paths, priority, "");
    forall p | !Inside(prefix, p)
      ensures UntouchedAt(db.tasks, RemovePrefix(db, prefix, children, paths, priority).db.tasks, p)
    {
      UnlistedIsUntouched(db, prefix, children, paths, priority, limit, p);
      FenceAllUntouched(mid, paths, priority, p);
      UntouchedChain(db.tasks, mid.tasks, FenceAll(mid, paths, priority).db.tasks, p);
    }
  }
}
