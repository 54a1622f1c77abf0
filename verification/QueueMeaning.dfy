/** What coalescing, release and death mean to the queue's producers and operators. */
module QueueMeaning {
  import opened Basics
  import opened Catalog
  import opened Queue
  import opened QueueInvariant
  import opened QueueLeases

  // ------------------------------------------------------------------ coalescing

  function CoalesceAll(t: Task, requests: seq<Request>): Task
    decreases |requests|
  {
    if requests == [] then t else Coalesce(CoalesceAll(t, requests[..|requests| - 1]), requests[|requests| - 1])
  }

  /** The newest generation a row and its requests mention. */
  function NewestOf(t: Task, requests: seq<Request>): int
    decreases |requests|
  {
    if requests == [] then t.generation
    else Max(NewestOf(t, requests[..|requests| - 1]), requests[|requests| - 1].generation)
  }

  lemma {:induction false} NewestBounds(t: Task, requests: seq<Request>, i: nat)
    requires i < |requests|
    ensures requests[i].generation <= NewestOf(t, requests)
    decreases |requests|
  {
    if i < |requests| - 1 {
      NewestBounds(t, requests[..|requests| - 1], i);
    }
  }

  /** In whatever order requests arrive, the newest generation is left, in its path's one pending row. */
  lemma {:induction false} CoalescingKeepsNewest(t: Task, requests: seq<Request>)
    ensures var r := CoalesceAll(t, requests);
      r.generation == NewestOf(t, requests) >= t.generation && r.path == t.path && r.state == t.state
    decreases |requests|
  {
    if requests != [] {
      CoalescingKeepsNewest(t, requests[..|requests| - 1]);
    }
  }

  /** It is as urgent and as early as the most urgent and the earliest of them, and no more so. */
  lemma {:induction false} CoalescingKeepsUrgency(t: Task, requests: seq<Request>)
    ensures var r := CoalesceAll(t, requests);
      && r.priority <= t.priority && r.dueAt <= t.dueAt
      && (forall i :: 0 <= i < |requests| ==> r.priority <= requests[i].priority && r.dueAt <= requests[i].dueAt)
      && (r.priority == t.priority || exists i :: 0 <= i < |requests| && requests[i].priority == r.priority)
      && (r.dueAt == t.dueAt || exists i :: 0 <= i < |requests| && requests[i].dueAt == r.dueAt)
    decreases |requests|
  {
    if requests != [] {
      var shorter := requests[..|requests| - 1];
      CoalescingKeepsUrgency(t, shorter);
      assert forall i :: 0 <= i < |shorter| ==> shorter[i] == requests[i];
      var last := requests[|requests| - 1];
      assert last in requests;
    }
  }

  /** Its retry budget starts afresh exactly when some request was newer than the row. */
  lemma {:induction false} CoalescingResetsBudget(t: Task, requests: seq<Request>)
    ensures var r := CoalesceAll(t, requests);
      if NewestOf(t, requests) > t.generation then r.attempts == 0 && r.crashCount == 0 && r.charge == 1 && r.log == []
      else r.attempts == t.attempts && r.crashCount == t.crashCount && r.charge == t.charge && r.log == t.log
    decreases |requests|
  {
    CoalescingKeepsNewest(t, requests);
    if requests != [] {
      CoalescingKeepsNewest(t, requests[..|requests| - 1]);
      CoalescingResetsBudget(t, requests[..|requests| - 1]);
    }
  }

  /** The operation that survives is the newest request's; among equals, the latest arrival's. */
  lemma {:induction false} NewestOperationWins(t: Task, requests: seq<Request>, i: nat)
    requires i < |requests| && requests[i].generation >= t.generation
    requires forall j :: 0 <= j < i ==> requests[j].generation <= requests[i].generation
    requires forall j :: i < j < |requests| ==> requests[j].generation < requests[i].generation
    ensures var r := CoalesceAll(t, requests);
      && r.generation == requests[i].generation && r.op == requests[i].op && r.oldPath == requests[i].oldPath
      && (requests[i].fileId.Some? ==> r.fileId == requests[i].fileId)
    decreases |requests|
  {
    var shorter := requests[..|requests| - 1];
    if i < |requests| - 1 {
      NewestOperationWins(t, shorter, i);
    } else {
      CoalescingKeepsNewest(t, shorter);
      NewestAtMost(t, shorter, requests[i].generation);
    }
  }

  lemma {:induction false} NewestAtMost(t: Task, requests: seq<Request>, g: int)
    requires t.generation <= g && forall j :: 0 <= j < |requests| ==> requests[j].generation <= g
    ensures NewestOf(t, requests) <= g
    decreases |requests|
  {
    if requests != [] {
      NewestAtMost(t, requests[..|requests| - 1], g);
    }
  }

  // ---------------------------------------------------------------------- release

  /** The row a release leaves pending at the path. */
  ghost predicate Lands(before: Db, after: Db, id: nat, p: nat)
    requires id in before.tasks
  {
    && InSlot(after.tasks, p, before.tasks[id].path, Pending)
    && (if InSlot(before.tasks, p, before.tasks[id].path, Pending)
      && before.tasks[p].generation >= before.tasks[id].generation
        then after.tasks[p] == before.tasks[p]
        else SameWork(after.tasks[p], before.tasks[id]) && after.tasks[p].dueAt == 0)
  }

  /** A released row becomes its path's pending work, or gives way to newer pending work. */
  lemma ReleaseLands(db: Db, id: nat)
    requires UniqueSlots(db.tasks) && id in db.tasks
      && (db.tasks[id].state.RetryWait? || db.tasks[id].state.WaitingDep?)
    ensures exists p :: Lands(db, ReleaseOne(db, id), id, p)
  {
    var t := db.tasks[id];
    var slot := Slot(db.tasks, t.path, Pending);
    assert slot.Some? ==> InSlot(db.tasks, slot.value, t.path, Pending);
    var p := if slot.Some? then slot.value else id;
    assert InSlot(ReleaseOne(db, id).tasks, p, t.path, Pending);
    assert Lands(db, ReleaseOne(db, id), id, p);
  }

  /** The same operation of the same generation, with the same accounting. */
  predicate SameWork(a: Task, b: Task) {
    && a.fileId == b.fileId && a.op == b.op && a.oldPath == b.oldPath && a.generation == b.generation
    && a.attempts == b.attempts && a.crashCount == b.crashCount && a.charge == b.charge && a.log == b.log
    && a.priority <= b.priority
  }

  // --------------------------------------------------------------- failed leases

  /** Where a failed lease's row goes. */
  function FailureTarget(t: Task, transient: bool, limit: nat): TaskState {
    if ShouldRetry(transient, FailureAttempts(t), limit) then RetryWait else Dead
  }

  /**
   * A failed lease waits for a retry while its failure is transient and within
   * the limit, and dies otherwise, counted and logged once; it does neither
   * exactly when a newer row of its path already holds the slot.
   */
  lemma FailureEnds(db: Db, id: nat, transient: bool, dueAt: int, limit: nat)
    requires Inv(db, limit) && id in db.tasks && db.tasks[id].state.InFlight?
    ensures var t := db.tasks[id];
      var target := FailureTarget(t, transient, limit);
      var outcome := HandleFailure(db, id, transient, dueAt, limit);
      if NewerOccupant(db.tasks, id, t, target) then outcome == RolledBack(StaleGeneration)
      else outcome.Committed? && InSlot(outcome.db.tasks, id, t.path, target)
           && outcome.db.tasks[id].attempts == FailureAttempts(t) && outcome.db.tasks[id].log == t.log + [TaskFailure]
  {
    var t := db.tasks[id];
    assert RowOk(t, limit);
    if FailureTarget(t, transient, limit).Dead? && !NewerOccupant(db.tasks, id, t, Dead) {
      DeathIs(db, id, limit);
    }
  }

  lemma DeathIs(db: Db, id: nat, limit: nat)
    requires Inv(db, limit) && id in db.tasks && db.tasks[id].state.InFlight?
      && !NewerOccupant(db.tasks, id, db.tasks[id], Dead)
    ensures MarkDead(db, id).Committed? && id in MarkDead(db, id).db.tasks
    ensures exists f :: MarkDead(db, id).db.tasks[id] == Died(db.tasks[id]).(fileId := f)
  {
    var moved := db.(tasks := Place(db.tasks, id, Died(db.tasks[id])));
    var a := DeathAnchoring(moved.files, Died(db.tasks[id]));
    if a.Anchored? {
      assert RecordDeath(moved, id).tasks[id] == Died(db.tasks[id]).(fileId := Some(a.fileId));
    } else {
      assert RecordDeath(moved, id).tasks[id] == Died(db.tasks[id]).(fileId := db.tasks[id].fileId);
    }
  }

  // --------------------------------------------------------------------- evidence

  /** A dead task always has a catalog row and a dead letter at least as new as itself. */
  ghost predicate EvidenceFor(db: Db, id: nat) {
    id in db.tasks && var t := db.tasks[id];
    && t.state.Dead? && t.fileId.Some? && t.fileId.value in db.dead
    && db.dead[t.fileId.value].generation >= t.generation
    && (db.dead[t.fileId.value].generation == t.generation ==> db.dead[t.fileId.value].path == t.path)
    && (t.fileId.value in db.files && db.files[t.fileId.value].generation == t.generation ==>
      db.files[t.fileId.value].status.Failed?)
  }

  lemma RecordDeathLeavesEvidence(db: Db, id: nat, limit: nat)
    requires Inv(db, limit) && id in db.tasks && db.tasks[id].state.Dead?
    ensures EvidenceFor(RecordDeath(db, id), id)
  {
    DeathAnchor(db, db.tasks[id], limit);
  }

  lemma DeathLeavesEvidence(db: Db, id: nat, limit: nat)
    requires Inv(db, limit) && MarkDead(db, id).Committed?
    ensures EvidenceFor(MarkDead(db, id).db, id)
      && MarkDead(db, id).db.tasks[id].log == db.tasks[id].log + [TaskFailure]
  {
    DiedOk(db.tasks[id], limit);
    PlaceKeeps(db, id, Died(db.tasks[id]), limit);
    RecordDeathLeavesEvidence(db.(tasks := Place(db.tasks, id, Died(db.tasks[id]))), id, limit);
  }

  /** A line of a receipt that landed a strictly newer generation of the file. */
  predicate Clears(item: Receipt, f: nat, generation: int) {
    item.fileId == f && !item.stale && item.generation > generation
  }

  /** A commit receipt clears a dead letter only with a strictly newer generation that really landed. */
  lemma {:induction false} EvidenceNeedsSuccess(db: Db, items: seq<Receipt>, f: nat)
    requires CompleteBatch(db, items).Committed? && f in db.dead
    ensures f in CompleteBatch(db, items).db.dead ==> CompleteBatch(db, items).db.dead[f] == db.dead[f]
    ensures f !in CompleteBatch(db, items).db.dead <==>
      exists i :: 0 <= i < |items| && Clears(items[i], f, db.dead[f].generation)
    decreases |items|
  {
    if items != [] {
      var mid := CompleteOne(db, items[0]).db;
      CompleteOneClears(db, items[0], f);
      if f in mid.dead {
        EvidenceNeedsSuccess(mid, items[1..], f);
        assert forall i :: 0 <= i < |items| - 1 ==> items[1..][i] == items[i + 1];
        if i :| 0 <= i < |items| && Clears(items[i], f, db.dead[f].generation) {
          assert i > 0 && items[1..][i - 1] == items[i];
        }
      } else {
        ClearedStaysCleared(mid, items[1..], f);
        assert Clears(items[0], f, db.dead[f].generation);
      }
    }
  }

  lemma CompleteOneClears(db: Db, item: Receipt, f: nat)
    requires CompleteOne(db, item).Committed? && f in db.dead
    ensures var after := CompleteOne(db, item).db.dead;
      && (f in after ==> after[f] == db.dead[f])
      && (f !in after <==> item.fileId == f && !item.stale && item.generation > db.dead[f].generation)
  {
  }

  lemma {:induction false} ClearedStaysCleared(db: Db, items: seq<Receipt>, f: nat)
    requires CompleteBatch(db, items).Committed? && f !in db.dead
    ensures f !in CompleteBatch(db, items).db.dead
    decreases |items|
  {
    if items != [] {
      ClearedStaysCleared(CompleteOne(db, items[0]).db, items[1..], f);
    }
  }

  /**
   * Retiring a superseded task spares every dead letter and every catalog row, and
   * only ever under a newer generation.
   */
  lemma RetirementSparesEvidence(db: Db, id: nat)
    requires Retire(db, id).Committed?
    ensures Retire(db, id).db.dead == db.dead && Retire(db, id).db.files == db.files
    ensures Retire(db, id).db != db ==> Superseded(db, id)
    ensures Superseded(db, id) ==> id in Retire(db, id).db.tasks && Retire(db, id).db.tasks[id].state.Done?
  {
  }
}
