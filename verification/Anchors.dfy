/**
 * The generation fence path by path: a row's anchor and generation come from an
 * earlier row of its own path, or its catalog row has been raised to it.
 */
module Anchors {
  import opened Basics
  import opened Catalog
  import opened Queue
  import opened QueueInvariant
  import opened QueueLeases
  import opened QueueRecovery
  import opened QueueProducers

  ghost predicate Inherits(before: map<nat, Task>, t: Task) {
    exists j :: HasAnchor(before, j, t)
  }

  predicate HasAnchor(before: map<nat, Task>, j: nat, t: Task) {
    j in before && before[j].path == t.path && before[j].fileId == t.fileId && before[j].generation == t.generation
  }

  /** Every row is behind its catalog row, or inherits its anchor. */
  ghost predicate Follows(before: map<nat, Task>, after: Db) {
    forall i :: i in after.tasks ==> AnchorOk(after.tasks[i], after.files) || Inherits(before, after.tasks[i])
  }

  lemma FollowsChain(a: map<nat, Task>, b: Db, c: Db)
    requires Follows(a, b) && Follows(b.tasks, c) && Grows(b.files, c.files)
    ensures Follows(a, c)
  {
    forall i | i in c.tasks && !AnchorOk(c.tasks[i], c.files)
      ensures Inherits(a, c.tasks[i])
    {
      var j :| HasAnchor(b.tasks, j, c.tasks[i]);
      assert !AnchorOk(b.tasks[j], b.files);
      var k :| HasAnchor(a, k, b.tasks[j]);
      assert HasAnchor(a, k, c.tasks[i]);
    }
  }

  /** What it is for: a path where nothing is ahead of its catalog row stays so. */
  lemma FollowsAnchors(before: Db, after: Db, p: Path)
    requires Follows(before.tasks, after) && Grows(before.files, after.files) && AnchoredAt(before, p)
    ensures AnchoredAt(after, p)
  {
    forall i | i in after.tasks && after.tasks[i].path == p && Inherits(before.tasks, after.tasks[i])
      ensures AnchorOk(after.tasks[i], after.files)
    {
      var j :| HasAnchor(before.tasks, j, after.tasks[i]);
      assert AnchorOk(before.tasks[j], before.files);
    }
  }

  /** Rows may leave, but none is new and none changes its anchor. */
  ghost predicate KeepsAnchors(before: map<nat, Task>, after: map<nat, Task>) {
    forall i :: i in after ==> HasAnchor(before, i, after[i])
  }

  lemma KeepingFollows(before: map<nat, Task>, after: Db)
    requires KeepsAnchors(before, after.tasks)
    ensures Follows(before, after)
  {
  }

  // ------------------------------------------------------------------ transitions

  lemma PlaceKeepsAnchors(tasks: map<nat, Task>, id: nat, row: Task)
    requires HasAnchor(tasks, id, row)
    ensures KeepsAnchors(tasks, Place(tasks, id, row))
  {
  }

  lemma {:induction false} CompletionKeepsAnchors(db: Db, items: seq<Receipt>)
    ensures KeepsAnchors(db.tasks, After(db, CompleteBatch(db, items)).tasks)
    decreases |items|
  {
    if items != [] && CompleteOne(db, items[0]).Committed? {
      CompleteOneShape(db, items[0]);
      var mid := CompleteOne(db, items[0]).db;
      assert KeepsAnchors(db.tasks, mid.tasks);
      CompletionKeepsAnchors(mid, items[1..]);
    }
  }

  /** A dying task without a catalog row is given one. */
  lemma DeathFollows(before: map<nat, Task>, mid: Db, id: nat)
    requires id in mid.tasks && KeepsAnchors(before, mid.tasks)
    ensures Follows(before, RecordDeath(mid, id))
  {
    var after := RecordDeath(mid, id);
    RecordDeathShape(mid, id);
    forall i | i in after.tasks
      ensures AnchorOk(after.tasks[i], after.files) || HasAnchor(before, i, after.tasks[i])
    {
      assert HasAnchor(before, i, mid.tasks[i]);
    }
  }

  lemma FailureFollows(db: Db, id: nat, transient: bool, dueAt: int, limit: nat)
    ensures Follows(db.tasks, After(db, HandleFailure(db, id, transient, dueAt, limit)))
  {
    KeepingFollows(db.tasks, db);
    if id in db.tasks {
      var retried := Retried(db.tasks[id], dueAt);
      PlaceKeepsAnchors(db.tasks, id, Died(db.tasks[id]));
      PlaceKeepsAnchors(db.tasks, id, retried);
      KeepingFollows(db.tasks, db.(tasks := Place(db.tasks, id, retried)));
      DeathFollows(db.tasks, db.(tasks := Place(db.tasks, id, Died(db.tasks[id]))), id);
    }
  }

  lemma ReleaseOneFollows(db: Db, id: nat)
    requires id in db.tasks
    ensures Follows(db.tasks, ReleaseOne(db, id)) && ReleaseOne(db, id).files == db.files
  {
    var slot := Slot(db.tasks, db.tasks[id].path, Pending);
    assert slot.Some? ==> InSlot(db.tasks, slot.value, db.tasks[id].path, Pending);
    var after := ReleaseOne(db, id).tasks;
    forall i | i in after
      ensures Inherits(db.tasks, after[i])
    {
      assert HasAnchor(db.tasks, i, after[i]) || HasAnchor(db.tasks, id, after[i]);
    }
  }

  lemma {:induction false} ReleaseFollows(db: Db, ids: seq<nat>)
    ensures Follows(db.tasks, ReleaseAll(db, ids)) && ReleaseAll(db, ids).files == db.files
    decreases |ids|
  {
    if ids == [] || ids[0] !in db.tasks {
      KeepingFollows(db.tasks, db);
    } else {
      var mid := ReleaseOne(db, ids[0]);
      ReleaseOneFollows(db, ids[0]);
      ReleaseFollows(mid, ids[1..]);
      FollowsChain(db.tasks, mid, ReleaseAll(mid, ids[1..]));
    }
  }

  lemma RecoverOneFollows(r: Recovery, id: nat)
    requires id in r.db.tasks
    ensures Follows(r.db.tasks, RecoverOne(r, id).db)
  {
    var moved := r.db.(tasks := Place(r.db.tasks, id, Crashed(r.db.tasks[id])));
    PlaceKeepsAnchors(r.db.tasks, id, Crashed(r.db.tasks[id]));
    KeepingFollows(r.db.tasks, moved);
    KeepingFollows(r.db.tasks, r.db.(tasks := r.db.tasks - {id}));
    DeathFollows(r.db.tasks, moved, id);
  }

  lemma {:induction false} RecoveryFollows(r: Recovery, ids: seq<nat>, limit: nat)
    requires Inv(r.db, limit) && Candidates(r.db.tasks, ids, InFlight)
    ensures Follows(r.db.tasks, RecoverAll(r, ids).db)
    decreases |ids|
  {
    if ids == [] {
      KeepingFollows(r.db.tasks, r.db);
    } else {
      var mid := RecoverOne(r, ids[0]);
      RecoverOneFollows(r, ids[0]);
      RestAreCandidates(r, ids, limit);
      RecoveryFollows(mid, ids[1..], limit);
      RecoverKeeps(mid, ids[1..], limit);
      FollowsChain(r.db.tasks, mid.db, RecoverAll(mid, ids[1..]).db);
    }
  }

  lemma RestAreCandidates(r: Recovery, ids: seq<nat>, limit: nat)
    requires Inv(r.db, limit) && Candidates(r.db.tasks, ids, InFlight) && ids != []
    ensures Inv(RecoverOne(r, ids[0]).db, limit) && Candidates(RecoverOne(r, ids[0]).db.tasks, ids[1..], InFlight)
  {
    RecoverOneShape(r, ids[0]);
    RecoverOneKeeps(r, ids[0], limit);
  }

  lemma PrepareFollows(db: Db, id: nat, observed: File)
    requires UniquePaths(db.files)
    ensures Follows(db.tasks, After(db, Prepare(db, id, observed)))
  {
    var after := After(db, Prepare(db, id, observed));
    if Prepare(db, id, observed).Committed? {
      PrepareShape(db, id, observed);
    }
    forall i | i in after.tasks
      ensures AnchorOk(after.tasks[i], after.files) || HasAnchor(db.tasks, i, after.tasks[i])
    {
    }
  }

  // -------------------------------------------------------------------- producers

  /** Paid work is behind its catalog row, or leaves the pending row's anchor as it was. */
  lemma EnqueueFollows(db: Db, e: Request)
    requires PaidFor(db, e)
    ensures Follows(db.tasks, After(db, Enqueue(db, e)))
  {
    KeepingFollows(db.tasks, db);
    if ValidRequest(e) {
      var p := EnqueueShape(db, e);
      var after := After(db, Enqueue(db, e));
      forall i | i in after.tasks
        ensures AnchorOk(after.tasks[i], after.files) || HasAnchor(db.tasks, i, after.tasks[i])
      {
      }
    }
  }

  lemma EventFollows(db: Db, e: Event, limit: nat)
    requires Inv(db, limit)
    ensures Follows(db.tasks, After(db, EnqueueEvent(db, e)))
  {
    KeepingFollows(db.tasks, db);
    AllocationAnchored(db, e, limit);
    EnqueueFollows(Allocate(db, e).db, Allocate(db, e).request);
  }

  lemma ReconcileFollows(db: Db, o: Observation, limit: nat)
    requires Inv(db, limit) && Reconcile(db, o).ScanEnqueued?
    ensures Follows(db.tasks, Reconcile(db, o).db)
  {
    forall p | InSlot(db.tasks, p, o.path, Pending)
      ensures Covers(db.tasks[p], o.path, o.op, 0)
    {
    }
    EnqueueFollows(if o.seen.Some? then Bump(db, o.seen.value.fileId) else db, ScanRequest(db, o));
  }

  lemma {:induction false} ExpansionFollows(db: Db, children: seq<Child>, priority: int, limit: nat)
    requires Inv(db, limit)
    ensures Follows(db.tasks, After(db, ExpandAll(db, children, priority)))
    decreases |children|
  {
    KeepingFollows(db.tasks, db);
    if children != [] && ExpandAll(db, children, priority).Committed? {
      var mid := ExpandOne(db, children[0], priority).db;
      ExpandOneKeeps(db, children[0], priority, limit);
      EnqueueFollows(Bump(db, children[0].fileId), ChildRequest(db, children[0], priority));
      ExpansionFollows(mid, children[1..], priority, limit);
      ExpandAllKeeps(mid, children[1..], priority, limit);
      FollowsChain(db.tasks, mid, ExpandAll(db, children, priority).db);
    }
  }

  lemma DirectoryFollows(db: Db, id: nat, children: seq<Child>, limit: nat)
    requires Inv(db, limit)
    ensures Follows(db.tasks, After(db, ExpandDirectory(db, id, children)))
  {
    KeepingFollows(db.tasks, db);
    if ExpandDirectory(db, id, children).Committed? {
      var mid := ExpandAll(db, children, db.tasks[id].priority).db;
      var after := ExpandDirectory(db, id, children).db;
      ExpansionFollows(db, children, db.tasks[id].priority, limit);
      assert KeepsAnchors(mid.tasks, after.tasks);
      KeepingFollows(mid.tasks, after);
      FollowsChain(db.tasks, mid, after);
    }
  }

  lemma RedriveOneFollows(db: Db, f: nat, priority: int)
    ensures Follows(db.tasks, After(db, RedriveOne(db, f, priority)))
  {
    KeepingFollows(db.tasks, db);
    if f in db.dead && f in db.files && db.files[f].generation <= db.dead[f].generation {
      var e := Request(Some(f), db.dead[f].path, Upsert, None, db.files[f].generation, priority, 0);
      EnqueueFollows(db, e);
    }
  }

  lemma {:induction false} RedriveFollows(db: Db, ids: seq<nat>, priority: int, limit: nat)
    requires Inv(db, limit)
    ensures Follows(db.tasks, After(db, RedriveAll(db, ids, priority)))
    decreases |ids|
  {
    KeepingFollows(db.tasks, db);
    if ids != [] && RedriveAll(db, ids, priority).Committed? {
      var mid := RedriveOne(db, ids[0], priority).db;
      RedriveOneKeeps(db, ids[0], priority, limit);
      RedriveOneFollows(db, ids[0], priority);
      RedriveFollows(mid, ids[1..], priority, limit);
      RedriveAllKeeps(mid, ids[1..], priority, limit);
      FollowsChain(db.tasks, mid, RedriveAll(db, ids, priority).db);
    }
  }

  /** Work for a catalog row that has been rewritten at the work's own generation. */
  lemma RewrittenFollows(db: Db, f: nat, file: File, e: Request)
    requires e.fileId == Some(f) && e.generation == file.generation
    ensures var mid := db.(files := db.files[f := file]); Follows(db.tasks, After(mid, Enqueue(mid, e)))
  {
    EnqueueFollows(db.(files := db.files[f := file]), e);
  }

  lemma {:induction false} UpgradeFollows(db: Db, ids: seq<nat>, model: string, priority: int, limit: nat)
    requires Inv(db, limit)
    ensures Follows(db.tasks, After(db, UpgradeAll(db, ids, model, priority)))
    decreases |ids|
  {
    KeepingFollows(db.tasks, db);
    if ids != [] && UpgradeAll(db, ids, model, priority).Committed? {
      var f := ids[0];
      var mid := UpgradeOne(db, f, model, priority).db;
      if f in db.files && UpgradeCandidate(db.files[f], model) {
        UpgradeOneKeeps(db, f, model, priority, limit);
        RewrittenFollows(db, f, UpgradedFile(db.files[f]), UpgradeRequest(db.files[f], f, priority));
      }
      UpgradeFollows(mid, ids[1..], model, priority, limit);
      UpgradeAllKeeps(mid, ids[1..], model, priority, limit);
      FollowsChain(db.tasks, mid, UpgradeAll(db, ids, model, priority).db);
    }
  }

  lemma BackfillFollows(db: Db, f: nat, generation: int, priority: int)
    ensures Follows(db.tasks, After(db, Backfill(db, f, generation, priority)))
  {
    KeepingFollows(db.tasks, db);
    if f in db.files && db.files[f].generation == generation {
      var file := db.files[f].(generation := generation + 1, status := PendingFile, indexedAt := None);
      RewrittenFollows(db, f, file, Request(Some(f), file.path, Upsert, None, generation + 1, priority, 0));
    }
  }
}
