/** Every transaction keeps the invariant, and the runs they make up. */
module QueueInvariant {
  import opened Basics
  import opened Catalog
  import opened Queue

  // ------------------------------------------------------------- row plumbing

  lemma PlaceLosesNothing(tasks: map<nat, Task>, id: nat, row: Task)
    requires id in tasks && row.path == tasks[id].path && row.generation == tasks[id].generation
    requires row.state.Done? || !NewerOccupant(tasks, id, row, row.state)
    ensures NothingLost(tasks, Place(tasks, id, row))
  {
    var after := Place(tasks, id, row);
    forall i | i in tasks && !tasks[i].state.Done?
      ensures Survives(tasks[i], after)
    {
      if i in after {
        assert after[i].path == tasks[i].path;
      } else {
        assert id in after && after[id].path == tasks[i].path;
      }
    }
  }

  lemma PlaceUnique(tasks: map<nat, Task>, id: nat, row: Task)
    requires UniqueSlots(tasks)
    ensures UniqueSlots(Place(tasks, id, row))
  {
  }

  /** Moving one row between slots keeps everything, if what it overwrites is old. */
  lemma PlaceKeeps(db: Db, id: nat, row: Task, limit: nat)
    requires Inv(db, limit) && id in db.tasks && RowOk(row, limit)
    requires row.path == db.tasks[id].path && row.generation == db.tasks[id].generation
      && row.fileId == db.tasks[id].fileId
    requires row.state.Done? || !NewerOccupant(db.tasks, id, row, row.state)
    ensures Kept(db, db.(tasks := Place(db.tasks, id, row)), limit)
  {
    var after := db.(tasks := Place(db.tasks, id, row));
    PlaceLosesNothing(db.tasks, id, row);
    PlaceUnique(db.tasks, id, row);
    SameAnchors(db, after);
    assert forall i :: i in after.tasks ==> RowOk(after.tasks[i], limit) && Rooted(after.tasks[i], after.files);
  }

  /** Rows that neither change anchor nor generation stay behind an unchanged catalog. */
  lemma SameAnchors(before: Db, after: Db)
    requires after.files == before.files
      && (forall f :: f in after.dead ==> f in before.dead && after.dead[f] == before.dead[f])
    requires forall i :: i in after.tasks ==>
      i in before.tasks && after.tasks[i].fileId == before.tasks[i].fileId
        && after.tasks[i].generation == before.tasks[i].generation
    ensures AllAnchored(before) ==> AllAnchored(after)
  {
    if AllAnchored(before) {
      forall i | i in after.tasks
        ensures AnchorOk(after.tasks[i], after.files)
      {
        assert AnchorOk(before.tasks[i], before.files);
      }
    }
  }

  /** Writing one row into a free slot keeps the invariant. */
  lemma SetRowKeeps(db: Db, id: nat, row: Task, limit: nat)
    requires Inv(db, limit) && RowOk(row, limit) && Rooted(row, db.files)
    requires forall j :: InSlot(db.tasks, j, row.path, row.state) ==> j == id
    ensures Inv(db.(tasks := db.tasks[id := row]), limit)
    ensures AllAnchored(db) && AnchorOk(row, db.files) ==> AllAnchored(db.(tasks := db.tasks[id := row]))
  {
    var after := db.tasks[id := row];
    forall i, j | i in after && j in after && after[i].path == after[j].path && after[i].state == after[j].state
      ensures i == j
    {
      assert i != id ==> InSlot(db.tasks, i, after[i].path, after[i].state);
      assert j != id ==> InSlot(db.tasks, j, after[j].path, after[j].state);
    }
  }

  lemma NewRowOk(e: Request, limit: nat)
    requires ValidRequest(e)
    ensures RowOk(NewRow(e), limit)
  {
  }

  lemma CoalesceOk(t: Task, e: Request, limit: nat)
    requires RowOk(t, limit) && t.state.Pending? && ValidRequest(e)
    ensures RowOk(Coalesce(t, e), limit)
  {
  }

  /** Adding or renewing work: no row leaves, none loses generation. */
  lemma EnqueueRowsStay(db: Db, e: Request)
    ensures RowsStay(db.tasks, After(db, Enqueue(db, e)).tasks)
  {
    var slot := Slot(db.tasks, e.path, Pending);
    assert slot.Some? ==> InSlot(db.tasks, slot.value, e.path, Pending);
  }

  /** The catalog has already been raised to the request's generation, or nothing at its path is anchored. */
  ghost predicate PaidFor(db: Db, e: Request) {
    && (e.fileId.Some? ==> e.fileId.value in db.files && e.generation <= db.files[e.fileId.value].generation)
    && (e.fileId.None? ==>
          forall p :: InSlot(db.tasks, p, e.path, Pending) && e.generation > db.tasks[p].generation ==>
            db.tasks[p].fileId.None?)
  }

  /** The row an enqueue writes. */
  lemma EnqueueShape(db: Db, e: Request) returns (p: nat)
    requires ValidRequest(e)
    ensures Enqueue(db, e).Committed?
    ensures var row := if InSlot(db.tasks, p, e.path, Pending) then Coalesce(db.tasks[p], e) else NewRow(e);
      Enqueue(db, e).db == db.(tasks := db.tasks[p := row])
    ensures p !in db.tasks <==> !(exists q :: InSlot(db.tasks, q, e.path, Pending))
    ensures p in db.tasks ==> InSlot(db.tasks, p, e.path, Pending)
  {
    var slot := Slot(db.tasks, e.path, Pending);
    assert slot.Some? ==> InSlot(db.tasks, slot.value, e.path, Pending);
    p := if slot.Some? then slot.value else NextRowId(db.tasks.Keys);
  }

  lemma EnqueueKeepsInv(db: Db, e: Request, limit: nat)
    requires Inv(db, limit) && (e.fileId.Some? ==> e.fileId.value in db.files)
    ensures Inv(After(db, Enqueue(db, e)), limit)
    ensures AllAnchored(db) && PaidFor(db, e) ==> AllAnchored(After(db, Enqueue(db, e)))
  {
    if ValidRequest(e) {
      var p := EnqueueShape(db, e);
      if p in db.tasks {
        CoalesceOk(db.tasks[p], e, limit);
        SetRowKeeps(db, p, Coalesce(db.tasks[p], e), limit);
      } else {
        NewRowOk(e, limit);
        SetRowKeeps(db, p, NewRow(e), limit);
      }
    }
  }

  lemma EnqueueKeeps(db: Db, e: Request, limit: nat)
    requires Inv(db, limit) && PaidFor(db, e)
    ensures Kept(db, After(db, Enqueue(db, e)), limit)
    ensures RowsStay(db.tasks, After(db, Enqueue(db, e)).tasks)
    ensures After(db, Enqueue(db, e)).files == db.files && After(db, Enqueue(db, e)).dead == db.dead
  {
    EnqueueKeepsInv(db, e, limit);
    EnqueueRowsStay(db, e);
    EnqueueFrame(db, e);
    SameCatalogKeeps(db, After(db, Enqueue(db, e)), limit);
  }

  lemma EnqueueFrame(db: Db, e: Request)
    ensures After(db, Enqueue(db, e)).files == db.files && After(db, Enqueue(db, e)).dead == db.dead
  {
  }

  /** A step that leaves the catalog alone and drops no row. */
  lemma SameCatalogKeeps(before: Db, after: Db, limit: nat)
    requires Inv(after, limit) && (AllAnchored(before) ==> AllAnchored(after))
    requires after.files == before.files
    requires forall i :: i in before.tasks ==>
      i in after.tasks && after.tasks[i].path == before.tasks[i].path
        && after.tasks[i].generation >= before.tasks[i].generation
    ensures Kept(before, after, limit)
  {
    RowsStaySurvive(before.tasks, after.tasks);
  }

  /** Rows keep their id, path and state; generations only rise. */
  ghost predicate RowsStay(before: map<nat, Task>, after: map<nat, Task>) {
    forall i :: i in before ==>
      i in after && after[i].path == before[i].path && after[i].state == before[i].state
        && after[i].generation >= before[i].generation
  }

  lemma RowsStaySurvive(before: map<nat, Task>, after: map<nat, Task>)
    requires forall i :: i in before ==>
      i in after && after[i].path == before[i].path && after[i].generation >= before[i].generation
    ensures NothingLost(before, after)
  {
  }

  /** A newer or equal generation on one catalog row keeps every anchor behind its row. */
  lemma RaiseKeepsInv(db: Db, f: nat, file: File, limit: nat)
    requires Inv(db, limit) && f in db.files && file.path == db.files[f].path
      && file.generation >= db.files[f].generation
    ensures Inv(db.(files := db.files[f := file]), limit)
    ensures AllAnchored(db) ==> AllAnchored(db.(files := db.files[f := file]))
  {
  }

  lemma BumpKeeps(db: Db, f: nat, limit: nat)
    requires Inv(db, limit) && f in db.files
    ensures Kept(db, Bump(db, f), limit)
  {
    RaiseKeepsInv(db, f, Bump(db, f).files[f], limit);
    RowsStaySurvive(db.tasks, db.tasks);
  }

  /** A step that only adds work, followed by any transaction. */
  lemma KeptChain(a: Db, b: Db, c: Db, limit: nat)
    requires Kept(a, b, limit) && RowsStay(a.tasks, b.tasks) && Kept(b, c, limit)
    ensures Kept(a, c, limit)
  {
    forall i | i in a.tasks && !a.tasks[i].state.Done?
      ensures Survives(a.tasks[i], c.tasks)
    {
      var j :| j in c.tasks && c.tasks[j].path == b.tasks[i].path && c.tasks[j].generation >= b.tasks[i].generation;
      assert c.tasks[j].path == a.tasks[i].path;
    }
  }

  // ------------------------------------------------- producers of pending work

  /** The catalog row whose next generation an event takes: at its (source) path, else the pending row's own. */
  ghost function Payer(db: Db, e: Event): (f: Option<nat>)
    ensures f.Some? && f.value !in db.files ==>
      exists p :: InSlot(db.tasks, p, e.path, Pending) && db.tasks[p].fileId == f
  {
    var f := FileAt(db.files, CatalogPath(e.path, e.op, e.oldPath));
    var slot := Slot(db.tasks, e.path, Pending);
    if f.Some? then f
    else if slot.Some? && slot.value in db.tasks then
      assert InSlot(db.tasks, slot.value, e.path, Pending);
      db.tasks[slot.value].fileId
    else None
  }

  lemma PayerIsListed(db: Db, e: Event, limit: nat)
    requires Inv(db, limit) && Payer(db, e).Some?
    ensures Payer(db, e).value in db.files
  {
    if FileAt(db.files, CatalogPath(e.path, e.op, e.oldPath)).None? {
      var p :| InSlot(db.tasks, p, e.path, Pending) && db.tasks[p].fileId == Payer(db, e);
      assert Rooted(db.tasks[p], db.files);
    }
  }

  /** The request an event becomes: its own, but that a write continues the rename still pending at its path. */
  ghost predicate Becomes(db: Db, e: Event, request: Request) {
    && request.path == e.path && request.priority == e.priority && request.dueAt == e.dueAt
    && ((request.op == e.op && request.oldPath == e.oldPath)
        || (e.op.Upsert? && request.op.Relocate? && exists p :: RenamesTo(db.tasks, p, e.path, request.oldPath)))
  }

  predicate RenamesTo(tasks: map<nat, Task>, p: nat, path: Path, oldPath: Option<Path>) {
    InSlot(tasks, p, path, Pending) && tasks[p].op.Relocate? && tasks[p].oldPath == oldPath
  }

  lemma AllocationIs(db: Db, e: Event, limit: nat)
    requires Inv(db, limit)
    ensures Allocate(db, e).Allocated?
    ensures var a := Allocate(db, e);
      && a.request.fileId == Payer(db, e) && a.db.tasks == db.tasks && Becomes(db, e, a.request)
      && (a.request.fileId.None? ==> a.db == db)
      && (a.request.fileId.Some? ==>
            a.request.fileId.value in db.files && a.db == Bump(db, a.request.fileId.value)
            && a.request.generation == db.files[a.request.fileId.value].generation + 1)
  {
    if Payer(db, e).Some? {
      PayerIsListed(db, e, limit);
    }
    var slot := Slot(db.tasks, e.path, Pending);
    if slot.Some? {
      var pending := db.tasks[slot.value];
      assert InSlot(db.tasks, slot.value, e.path, Pending);
      assert pending.op.Relocate? ==> RenamesTo(db.tasks, slot.value, e.path, pending.oldPath);
    }
  }

  lemma UnanchoredPending(db: Db, e: Event, p: nat)
    requires UniqueSlots(db.tasks) && Payer(db, e).None?
    requires InSlot(db.tasks, p, e.path, Pending)
    ensures db.tasks[p].fileId.None?
  {
    SlotIs(db.tasks, p);
  }

  /** What the generation fence needs of an allocation. */
  lemma AllocationAnchored(db: Db, e: Event, limit: nat)
    requires Inv(db, limit)
    ensures Allocate(db, e).Allocated?
    ensures var a := Allocate(db, e);
      && Kept(db, a.db, limit) && a.db.tasks == db.tasks && PaidFor(a.db, a.request) && a.request.path == e.path
  {
    var a := Allocate(db, e);
    RowsStaySurvive(db.tasks, db.tasks);
    AllocationIs(db, e, limit);
    if a.request.fileId.Some? {
      BumpKeeps(db, a.request.fileId.value, limit);
    } else {
      forall p | InSlot(db.tasks, p, e.path, Pending)
        ensures db.tasks[p].fileId.None?
      {
        UnanchoredPending(db, e, p);
      }
    }
  }

  /** Work whose generation is already paid for, queued on top of the transaction that paid. */
  lemma PaidEnqueueKeeps(db: Db, mid: Db, request: Request, limit: nat)
    requires Kept(db, mid, limit) && mid.tasks == db.tasks && PaidFor(mid, request)
    ensures Kept(db, After(mid, Enqueue(mid, request)), limit)
    ensures RowsStay(db.tasks, After(mid, Enqueue(mid, request)).tasks)
  {
    EnqueueKeeps(mid, request, limit);
    KeptChain(db, mid, After(mid, Enqueue(mid, request)), limit);
  }

  lemma EventKeeps(db: Db, e: Event, limit: nat)
    requires Inv(db, limit)
    ensures Kept(db, After(db, EnqueueEvent(db, e)), limit)
    ensures RowsStay(db.tasks, After(db, EnqueueEvent(db, e)).tasks)
  {
    RowsStaySurvive(db.tasks, db.tasks);
    var a := Allocate(db, e);
    AllocationAnchored(db, e, limit);
    PaidEnqueueKeeps(db, a.db, a.request, limit);
  }

  /**
   * A watch event's generation is strictly above the pending row it coalesces
   * into exactly when the catalog row that pays for it does not trail that row.
   */
  lemma EventStrictlyNewer(db: Db, e: Event, p: nat, limit: nat)
    requires Inv(db, limit) && InSlot(db.tasks, p, e.path, Pending)
    ensures Allocate(db, e).Allocated? && (Payer(db, e).Some? ==> Payer(db, e).value in db.files)
    ensures Allocate(db, e).request.generation > db.tasks[p].generation
      <==> (Payer(db, e).None? || db.files[Payer(db, e).value].generation >= db.tasks[p].generation)
  {
    AllocationIs(db, e, limit);
    SlotIs(db.tasks, p);
    if Payer(db, e).None? {
      assert p in RowsAt(db.tasks, EventPaths(e));
    }
  }

  /**
   * While nothing at the path runs ahead of its catalog row, that is whenever
   * the pending row is anchored to the payer.
   */
  lemma OwnRowStrictlyNewer(db: Db, e: Event, p: nat, limit: nat)
    requires Inv(db, limit) && AnchoredAt(db, e.path) && InSlot(db.tasks, p, e.path, Pending)
    requires db.tasks[p].fileId == Payer(db, e)
    ensures Allocate(db, e).Allocated? && Allocate(db, e).request.generation > db.tasks[p].generation
  {
    EventStrictlyNewer(db, e, p, limit);
    assert AnchorOk(db.tasks[p], db.files);
  }

  lemma ReconcileKeeps(db: Db, o: Observation, limit: nat)
    requires Inv(db, limit)
    ensures Reconcile(db, o).ScanEnqueued? ==>
      && Kept(db, Reconcile(db, o).db, limit)
      && RowsStay(db.tasks, Reconcile(db, o).db.tasks)
  {
    if Reconcile(db, o).ScanEnqueued? {
      var request := ScanRequest(db, o);
      forall p | InSlot(db.tasks, p, o.path, Pending)
        ensures Covers(db.tasks[p], o.path, o.op, 0)
      {
      }
      if o.seen.Some? {
        BumpKeeps(db, o.seen.value.fileId, limit);
        var mid := Bump(db, o.seen.value.fileId);
        EnqueueKeeps(mid, request, limit);
        KeptChain(db, mid, After(mid, Enqueue(mid, request)), limit);
      } else {
        EnqueueKeeps(db, request, limit);
      }
    }
  }

  /** Scanner work is always strictly newer than the pending row it coalesces into. */
  lemma ScannerStrictlyNewer(db: Db, o: Observation, p: nat)
    requires Reconcile(db, o).ScanEnqueued? && InSlot(db.tasks, p, o.path, Pending)
    requires db.tasks[p].generation >= 1
    ensures o.seen.Some? && ScanRequest(db, o).generation > db.tasks[p].generation + 1
  {
    var minimum := if o.seen.Some? then o.seen.value.generation else 0;
    assert !Covers(db.tasks[p], o.path, o.op, minimum);
  }

  // -------------------------------------------------------------------- leases

  lemma ClaimUnique(db: Db, ids: set<nat>, now: int, source: Source)
    requires UniqueSlots(db.tasks) && forall i :: i in ids ==> Claimable(db.tasks, i, now, source)
    ensures UniqueSlots(Claim(db, ids).tasks)
  {
    var after := Claim(db, ids).tasks;
    forall i, j | i in after && j in after && after[i].path == after[j].path && after[i].state == after[j].state
      ensures i == j
    {
      assert InSlot(db.tasks, j, db.tasks[j].path, db.tasks[j].state);
      assert InSlot(db.tasks, i, db.tasks[i].path, db.tasks[i].state);
    }
  }

  lemma ClaimedOk(t: Task, limit: nat)
    requires RowOk(t, limit) && t.state.Pending?
    ensures RowOk(Claimed(t), limit)
  {
  }

  lemma ClaimKeepsInv(db: Db, ids: set<nat>, now: int, source: Source, limit: nat)
    requires Inv(db, limit) && forall i :: i in ids ==> Claimable(db.tasks, i, now, source)
    ensures Inv(Claim(db, ids), limit)
  {
    ClaimUnique(db, ids, now, source);
    forall i | i in db.tasks
      ensures RowOk(Claim(db, ids).tasks[i], limit)
    {
      if i in ids {
        ClaimedOk(db.tasks[i], limit);
      }
    }
    assert forall i :: i in db.tasks ==> Claim(db, ids).tasks[i].fileId == db.tasks[i].fileId;
  }

  lemma ClaimKeeps(db: Db, ids: set<nat>, now: int, source: Source, limit: nat)
    requires Inv(db, limit) && forall i :: i in ids ==> Claimable(db.tasks, i, now, source)
    ensures Kept(db, Claim(db, ids), limit)
  {
    ClaimKeepsInv(db, ids, now, source, limit);
    SameAnchors(db, Claim(db, ids));
    SameCatalogKeeps(db, Claim(db, ids), limit);
  }
}
