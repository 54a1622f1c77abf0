/** The transitions that end a lease: prepare, complete, retry, park, die. */
module QueueLeases {
  import opened Basics
  import opened Catalog
  import opened Queue
  import opened QueueInvariant

  // ----------------------------------------------------------- catalog writes

  /** Replacing one catalog row by a newer or equal, hidden one keeps the invariant. */
  lemma SetFileKeeps(db: Db, f: nat, file: File, limit: nat)
    requires Inv(db, limit) && file.generation >= 1 && !Visible(file)
    requires f in db.files ==> file.generation >= db.files[f].generation
    requires forall g :: g in db.files && db.files[g].path == file.path ==> g == f
    ensures Kept(db, db.(files := db.files[f := file]), limit)
  {
    RowsStaySurvive(db.tasks, db.tasks);
  }

  /** What a successful prepare writes: one catalog row and the task's anchor to it. */
  lemma PrepareShape(db: Db, id: nat, observed: File)
    requires UniquePaths(db.files) && Prepare(db, id, observed).Committed?
    ensures var file := observed.(status := PendingFile);
      var after := Prepare(db, id, observed).db;
      && id in db.tasks && db.tasks[id].generation == file.generation && db.tasks[id].path == file.path
      && id in after.tasks && after.tasks[id].fileId.Some?
      && var f := after.tasks[id].fileId.value;
         && after == Db(db.files[f := file], db.tasks[id := db.tasks[id].(fileId := Some(f))], db.dead)
         && (f in db.files ==> file.generation >= db.files[f].generation)
         && (forall g :: g in db.files && db.files[g].path == file.path ==> g == f)
  {
    forall g | g in db.files && db.files[g].path == observed.path
      ensures FileAt(db.files, observed.path) == Some(g)
    {
      FileAtIs(db.files, g);
    }
  }

  lemma AnchorKeeps(db: Db, id: nat, f: nat, limit: nat)
    requires Inv(db, limit) && id in db.tasks && f in db.files
    ensures Inv(db.(tasks := db.tasks[id := db.tasks[id].(fileId := Some(f))]), limit)
    ensures AllAnchored(db) && db.tasks[id].generation <= db.files[f].generation ==>
      AllAnchored(db.(tasks := db.tasks[id := db.tasks[id].(fileId := Some(f))]))
  {
    var row := db.tasks[id].(fileId := Some(f));
    SetRowKeeps(db, id, row, limit) by {
      forall j | InSlot(db.tasks, j, row.path, row.state)
        ensures j == id
      {
      }
    }
  }

  /** A hidden catalog row of the task's own generation, and the task's anchor to it. */
  lemma WriteAndAnchorKeeps(db: Db, id: nat, f: nat, file: File, limit: nat)
    requires Inv(db, limit) && id in db.tasks && file.generation == db.tasks[id].generation && !Visible(file)
    requires f in db.files ==> file.generation >= db.files[f].generation
    requires forall g :: g in db.files && db.files[g].path == file.path ==> g == f
    ensures Kept(db, Db(db.files[f := file], db.tasks[id := db.tasks[id].(fileId := Some(f))], db.dead), limit)
  {
    assert RowOk(db.tasks[id], limit);
    var written := db.(files := db.files[f := file]);
    SetFileKeeps(db, f, file, limit);
    AnchorKeeps(written, id, f, limit);
    KeptThen(db, written, written.(tasks := db.tasks[id := db.tasks[id].(fileId := Some(f))]), limit);
  }

  lemma PrepareKeeps(db: Db, id: nat, observed: File, limit: nat)
    requires Inv(db, limit)
    ensures Kept(db, After(db, Prepare(db, id, observed)), limit)
  {
    var outcome := Prepare(db, id, observed);
    if outcome.Committed? {
      PrepareShape(db, id, observed);
      WriteAndAnchorKeeps(db, id, outcome.db.tasks[id].fileId.value, observed.(status := PendingFile), limit);
    } else {
      SameCatalogKeeps(db, db, limit);
    }
  }

  lemma MoveKeepsInv(db: Db, f: nat, newPath: Path, limit: nat)
    requires Inv(db, limit) && f in db.files && forall g :: g in db.files && db.files[g].path == newPath ==> g == f
    ensures Inv(db.(files := db.files[f := db.files[f].(path := newPath)]), limit)
    ensures AllAnchored(db) ==> AllAnchored(db.(files := db.files[f := db.files[f].(path := newPath)]))
  {
  }

  lemma RelocateKeeps(db: Db, f: nat, generation: int, newPath: Path, limit: nat)
    requires Inv(db, limit)
    ensures Kept(db, After(db, RelocateFile(db, f, generation, newPath)), limit)
  {
    RowsStaySurvive(db.tasks, db.tasks);
    if RelocateFile(db, f, generation, newPath).Committed? {
      forall g | g in db.files && db.files[g].path == newPath
        ensures g == f
      {
        FileAtIs(db.files, g);
      }
      MoveKeepsInv(db, f, newPath, limit);
    }
  }

  // --------------------------------------------------------------- completion

  lemma DoneOk(t: Task, limit: nat)
    requires RowOk(t, limit) && t.state.InFlight?
    ensures RowOk(t.(state := Done), limit)
  {
  }

  lemma MarkDoneKeeps(db: Db, id: nat, clear: bool, limit: nat)
    requires Inv(db, limit)
    ensures Kept(db, After(db, MarkDone(db, id, clear)), limit)
  {
    RowsStaySurvive(db.tasks, db.tasks);
    if MarkDone(db, id, clear).Committed? {
      DoneOk(db.tasks[id], limit);
      PlaceKeeps(db, id, db.tasks[id].(state := Done), limit);
    }
  }

  lemma RetireKeeps(db: Db, id: nat, limit: nat)
    requires Inv(db, limit)
    ensures Kept(db, After(db, Retire(db, id)), limit)
  {
    RowsStaySurvive(db.tasks, db.tasks);
    if TransitionError(db, id, InFlight).None? {
      DoneOk(db.tasks[id], limit);
      PlaceKeeps(db, id, db.tasks[id].(state := Done), limit);
    }
  }

  /** Everything but Quiet: completing is what makes rows visible. */
  ghost predicate KeptAloud(before: Db, after: Db, limit: nat) {
    && Inv(after, limit) && (AllAnchored(before) ==> AllAnchored(after))
    && Grows(before.files, after.files) && NothingLost(before.tasks, after.tasks)
  }

  /** A new status on a row of the same generation leaves the invariant alone. */
  lemma StatusKeepsInv(db: Db, f: nat, status: FileStatus, indexedAt: Option<int>, limit: nat)
    requires Inv(db, limit) && f in db.files
    ensures Inv(db.(files := db.files[f := db.files[f].(status := status, indexedAt := indexedAt)]), limit)
    ensures AllAnchored(db) ==>
      AllAnchored(db.(files := db.files[f := db.files[f].(status := status, indexedAt := indexedAt)]))
  {
  }

  lemma CompleteOneShape(db: Db, item: Receipt)
    requires CompleteOne(db, item).Committed?
    ensures InSlot(db.tasks, item.taskId, db.tasks[item.taskId].path, InFlight)
    ensures CompleteOne(db, item).db.tasks == Place(db.tasks, item.taskId, db.tasks[item.taskId].(state := Done))
  {
  }

  lemma CompleteOneKeeps(db: Db, item: Receipt, limit: nat)
    requires Inv(db, limit)
    ensures KeptAloud(db, After(db, CompleteOne(db, item)), limit)
  {
    RowsStaySurvive(db.tasks, db.tasks);
    if CompleteOne(db, item).Committed? {
      if item.stale {
        MarkDoneKeeps(db, item.taskId, false, limit);
      } else {
        var file := db.files[item.fileId].(status := item.status, indexedAt := item.indexedAt);
        StatusKeepsInv(db, item.fileId, item.status, item.indexedAt, limit);
        MarkDoneKeeps(db.(files := db.files[item.fileId := file]), item.taskId, true, limit);
      }
    }
  }

  // ---------------------------------------------------------- batches of paths

  /** Rows at path `p` are exactly as they were. */
  ghost predicate UntouchedAt(before: map<nat, Task>, after: map<nat, Task>, p: Path) {
    && (forall i :: i in before && before[i].path == p ==> i in after && after[i] == before[i])
    && (forall i :: i in after && after[i].path == p ==> i in before && before[i] == after[i])
  }

  ghost predicate OnlyAt(before: map<nat, Task>, after: map<nat, Task>, p: Path) {
    && (forall i :: i in before && before[i].path != p ==> i in after && after[i] == before[i])
    && (forall i :: i in after && after[i].path != p ==> i in before && before[i] == after[i])
  }

  /** A step at one path, then steps that leave that path alone, lose nothing. */
  lemma NothingLostChain(a: map<nat, Task>, b: map<nat, Task>, c: map<nat, Task>, p: Path)
    requires NothingLost(a, b) && OnlyAt(a, b, p) && NothingLost(b, c) && UntouchedAt(b, c, p)
    ensures NothingLost(a, c)
  {
    forall i | i in a && !a[i].state.Done?
      ensures Survives(a[i], c)
    {
      if a[i].path == p {
        var j :| j in b && b[j].path == p && b[j].generation >= a[i].generation;
        assert j in c && c[j] == b[j];
      } else {
        assert i in b && b[i] == a[i];
      }
    }
  }

  lemma PlaceOnlyAt(tasks: map<nat, Task>, id: nat, row: Task)
    requires id in tasks && row.path == tasks[id].path
    ensures OnlyAt(tasks, Place(tasks, id, row), row.path)
  {
  }

  lemma CompleteUntouched(db: Db, items: seq<Receipt>, p: Path)
    requires forall i :: i in db.tasks && db.tasks[i].path == p ==> !db.tasks[i].state.InFlight?
    ensures UntouchedAt(db.tasks, After(db, CompleteBatch(db, items)).tasks, p)
    decreases |items|
  {
    if items != [] && CompleteOne(db, items[0]).Committed? {
      var mid := CompleteOne(db, items[0]).db;
      var t := db.tasks[items[0].taskId];
      CompleteOneShape(db, items[0]);
      PlaceOnlyAt(db.tasks, items[0].taskId, t.(state := Done));
      assert UntouchedAt(db.tasks, mid.tasks, p);
      CompleteUntouched(mid, items[1..], p);
    }
  }

  /** Completing a task empties the in-flight slot of its path. */
  lemma DoneEmptiesSlot(tasks: map<nat, Task>, id: nat)
    requires UniqueSlots(tasks) && id in tasks && tasks[id].state.InFlight?
    ensures var after := Place(tasks, id, tasks[id].(state := Done));
      forall i :: i in after && after[i].path == tasks[id].path ==> !after[i].state.InFlight?
  {
  }

  lemma {:induction false} CompleteBatchInv(db: Db, items: seq<Receipt>, limit: nat)
    requires Inv(db, limit) && CompleteBatch(db, items).Committed?
    ensures Inv(CompleteBatch(db, items).db, limit) && Grows(db.files, CompleteBatch(db, items).db.files)
    ensures AllAnchored(db) ==> AllAnchored(CompleteBatch(db, items).db)
    decreases |items|
  {
    if items != [] {
      CompleteOneKeeps(db, items[0], limit);
      CompleteBatchInv(CompleteOne(db, items[0]).db, items[1..], limit);
    }
  }

  lemma CompleteOneUnique(db: Db, item: Receipt)
    requires UniqueSlots(db.tasks) && CompleteOne(db, item).Committed?
    ensures UniqueSlots(CompleteOne(db, item).db.tasks) && NothingLost(db.tasks, CompleteOne(db, item).db.tasks)
    ensures OnlyAt(db.tasks, CompleteOne(db, item).db.tasks, db.tasks[item.taskId].path)
    ensures var after := CompleteOne(db, item).db.tasks;
      forall i :: i in after && after[i].path == db.tasks[item.taskId].path ==> !after[i].state.InFlight?
  {
    CompleteOneShape(db, item);
    var row := db.tasks[item.taskId].(state := Done);
    PlaceUnique(db.tasks, item.taskId, row);
    PlaceLosesNothing(db.tasks, item.taskId, row);
    PlaceOnlyAt(db.tasks, item.taskId, row);
    DoneEmptiesSlot(db.tasks, item.taskId);
  }

  lemma {:induction false} CompleteBatchLosesNothing(db: Db, items: seq<Receipt>)
    requires UniqueSlots(db.tasks) && CompleteBatch(db, items).Committed?
    ensures NothingLost(db.tasks, CompleteBatch(db, items).db.tasks)
    decreases |items|
  {
    if items == [] {
      RowsStaySurvive(db.tasks, db.tasks);
    } else {
      var mid := CompleteOne(db, items[0]).db;
      var p := db.tasks[items[0].taskId].path;
      CompleteOneUnique(db, items[0]);
      CompleteBatchLosesNothing(mid, items[1..]);
      CompleteUntouched(mid, items[1..], p);
      NothingLostChain(db.tasks, mid.tasks, CompleteBatch(mid, items[1..]).db.tasks, p);
    }
  }

  /** CompleteCommittedBatch keeps the invariant and loses no work. */
  lemma CompleteBatchKeeps(db: Db, items: seq<Receipt>, limit: nat)
    requires Inv(db, limit)
    ensures CompleteBatch(db, items).Committed? ==> KeptAloud(db, CompleteBatch(db, items).db, limit)
  {
    if CompleteBatch(db, items).Committed? {
      CompleteBatchInv(db, items, limit);
      CompleteBatchLosesNothing(db, items);
    }
  }

  // ------------------------------------------------------------- failed leases

  lemma RetriedOk(t: Task, dueAt: int, transient: bool, limit: nat)
    requires RowOk(t, limit) && t.state.InFlight? && ShouldRetry(transient, FailureAttempts(t), limit)
    ensures RowOk(Retried(t, dueAt), limit)
  {
    Logged(t.log, TaskFailure);
  }

  lemma DiedOk(t: Task, limit: nat)
    requires RowOk(t, limit) && t.state.InFlight?
    ensures RowOk(Died(t), limit)
  {
    Logged(t.log, TaskFailure);
  }

  lemma RefundedOk(t: Task, dueAt: int, limit: nat)
    requires RowOk(t, limit) && t.state.InFlight?
    ensures RowOk(Refunded(t, dueAt), limit) && RowOk(Parked(t), limit)
    ensures Refunded(t, dueAt).attempts == t.attempts - t.charge == Parked(t).attempts
  {
  }

  /** A dispatch refund puts the claimed row's accounting back, exactly. */
  lemma RefundUndoesClaim(t: Task, dueAt: int, limit: nat)
    requires RowOk(t, limit) && t.state.Pending?
    ensures Refunded(Claimed(t), dueAt) == t.(state := RetryWait, dueAt := dueAt)
  {
    ClaimedOk(t, limit);
    RefundedOk(Claimed(t), dueAt, limit);
  }

  lemma MarkRetryKeeps(db: Db, id: nat, dueAt: int, refund: bool, limit: nat)
    requires Inv(db, limit)
    requires !refund && id in db.tasks && db.tasks[id].state.InFlight? ==>
      ShouldRetry(true, FailureAttempts(db.tasks[id]), limit)
    ensures Kept(db, After(db, MarkRetry(db, id, dueAt, refund)), limit)
  {
    RowsStaySurvive(db.tasks, db.tasks);
    if MarkRetry(db, id, dueAt, refund).Committed? {
      var t := db.tasks[id];
      if refund {
        RefundedOk(t, dueAt, limit);
        PlaceKeeps(db, id, Refunded(t, dueAt), limit);
      } else {
        RetriedOk(t, dueAt, true, limit);
        PlaceKeeps(db, id, Retried(t, dueAt), limit);
      }
    }
  }

  // ------------------------------------------------------------------- parking

  lemma ParkUnique(db: Db, ids: seq<nat>)
    requires UniqueSlots(db.tasks) && CanPark(db, ids)
    ensures UniqueSlots(ParkedRows(db.tasks, ids))
  {
    var after := ParkedRows(db.tasks, ids);
    forall i, j | i in after && j in after && after[i].path == after[j].path && after[i].state == after[j].state
      ensures i == j
    {
      assert i in ids && j !in ids && db.tasks[j].state.WaitingDep? ==> ClearedByParking(db.tasks, ids, j);
      assert j in ids && i !in ids && db.tasks[i].state.WaitingDep? ==> ClearedByParking(db.tasks, ids, i);
      assert i in ids ==> db.tasks[i].state.InFlight?;
      assert j in ids ==> db.tasks[j].state.InFlight?;
    }
  }

  lemma ParkLosesNothing(db: Db, ids: seq<nat>)
    requires UniqueSlots(db.tasks) && CanPark(db, ids)
    ensures NothingLost(db.tasks, ParkedRows(db.tasks, ids))
  {
    var after := ParkedRows(db.tasks, ids);
    forall i | i in db.tasks && !db.tasks[i].state.Done?
      ensures Survives(db.tasks[i], after)
    {
      if ClearedByParking(db.tasks, ids, i) {
        var k :| k in ids && k in db.tasks && k != i && db.tasks[k].path == db.tasks[i].path;
        assert !NewerOccupant(db.tasks, k, db.tasks[k], WaitingDep);
        assert db.tasks[k].state.InFlight?;
        assert k in after && after[k] == Parked(db.tasks[k]);
      } else {
        assert i in after && after[i].path == db.tasks[i].path;
      }
    }
  }

  lemma ParkKeepsInv(db: Db, ids: seq<nat>, limit: nat)
    requires Inv(db, limit) && CanPark(db, ids)
    ensures Inv(ParkBatch(db, ids), limit)
  {
    ParkUnique(db, ids);
    var after := ParkedRows(db.tasks, ids);
    forall i | i in after
      ensures RowOk(after[i], limit) && Rooted(after[i], db.files)
    {
      if i in ids {
        RefundedOk(db.tasks[i], 0, limit);
      }
    }
  }

  lemma ParkKeeps(db: Db, ids: seq<nat>, limit: nat)
    requires Inv(db, limit)
    ensures Kept(db, ParkBatch(db, ids), limit)
  {
    if CanPark(db, ids) {
      ParkKeepsInv(db, ids, limit);
      ParkLosesNothing(db, ids);
      SameAnchors(db, ParkBatch(db, ids));
    } else {
      SameCatalogKeeps(db, db, limit);
    }
  }

  // -------------------------------------------------------------------- deaths

  lemma FailureFileKeeps(db: Db, t: Task, limit: nat)
    requires Inv(db, limit) && t.generation >= 1
    ensures FailureFile(db.files, t).Anchored?
    ensures var a := FailureFile(db.files, t);
      a.fileId in a.files && a.files[a.fileId].generation >= t.generation && Kept(db, db.(files := a.files), limit)
  {
    RowsStaySurvive(db.tasks, db.tasks);
    var a := FailureFile(db.files, t);
    var file := a.files[a.fileId];
    forall g | g in db.files && db.files[g].path == t.path
      ensures g == a.fileId
    {
      FileAtIs(db.files, g);
    }
    if a.files != db.files {
      assert a.files == db.files[a.fileId := file];
      SetFileKeeps(db, a.fileId, file, limit);
    }
  }

  /** The rows of `after` are those of `before` up to their catalog anchors. */
  ghost predicate SameRows(before: map<nat, Task>, after: map<nat, Task>) {
    && after.Keys == before.Keys
    && forall i :: i in before ==>
         after[i].path == before[i].path && after[i].state == before[i].state
           && after[i].generation == before[i].generation
  }

  lemma RecordDeathShape(db: Db, id: nat)
    requires id in db.tasks
    ensures SameRows(db.tasks, RecordDeath(db, id).tasks)
    ensures OnlyAt(db.tasks, RecordDeath(db, id).tasks, db.tasks[id].path)
  {
  }

  lemma FailKeeps(db: Db, f: nat, generation: int, limit: nat)
    requires Inv(db, limit) && f in db.files
    ensures Inv(db.(files := FailIfCurrent(db.files, f, generation)), limit)
    ensures AllAnchored(db) ==> AllAnchored(db.(files := FailIfCurrent(db.files, f, generation)))
    ensures Grows(db.files, FailIfCurrent(db.files, f, generation))
      && Quiet(db.files, FailIfCurrent(db.files, f, generation))
    ensures f in FailIfCurrent(db.files, f, generation)
    ensures FailIfCurrent(db.files, f, generation)[f].generation == db.files[f].generation
  {
    StatusKeepsInv(db, f, Failed, db.files[f].indexedAt, limit);
  }

  lemma DeadLetterKeeps(db: Db, f: nat, letter: DeadLetter, limit: nat)
    requires Inv(db, limit) && f in db.files && letter.generation >= 1
    ensures Inv(db.(dead := UpsertDeadLetter(db.dead, f, letter)), limit)
    ensures AllAnchored(db) && letter.generation <= db.files[f].generation ==>
      AllAnchored(db.(dead := UpsertDeadLetter(db.dead, f, letter)))
  {
  }

  /** The anchor a dying task ends with. */
  lemma DeathAnchor(db: Db, t: Task, limit: nat)
    requires Inv(db, limit) && RowOk(t, limit) && Rooted(t, db.files)
    ensures var a := DeathAnchoring(db.files, t);
      && a.Anchored? && a.fileId in a.files && (AnchorOk(t, db.files) ==> a.files[a.fileId].generation >= t.generation)
      && Inv(db.(files := a.files), limit) && Grows(db.files, a.files) && Quiet(db.files, a.files)
      && (AllAnchored(db) ==> AllAnchored(db.(files := a.files)))
  {
    if t.fileId.None? {
      FailureFileKeeps(db, t, limit);
    }
  }

  lemma BuryKeeps(db: Db, id: nat, f: nat, limit: nat)
    requires Inv(db, limit) && id in db.tasks && f in db.files
    ensures Inv(Bury(db, id, f), limit) && Grows(db.files, Bury(db, id, f).files)
      && Quiet(db.files, Bury(db, id, f).files)
    ensures AllAnchored(db) && db.files[f].generation >= db.tasks[id].generation ==> AllAnchored(Bury(db, id, f))
  {
    var t := db.tasks[id];
    var row := t.(fileId := Some(f));
    FailKeeps(db, f, t.generation, limit);
    var failed := db.(files := FailIfCurrent(db.files, f, t.generation));
    SetRowKeeps(failed, id, row, limit);
    DeadLetterKeeps(failed.(tasks := failed.tasks[id := row]), f, DeadLetter(t.path, t.generation), limit);
  }

  lemma RecordDeathKeeps(db: Db, id: nat, limit: nat)
    requires Inv(db, limit) && id in db.tasks
    ensures Inv(RecordDeath(db, id), limit) && (AllAnchored(db) ==> AllAnchored(RecordDeath(db, id)))
    ensures Grows(db.files, RecordDeath(db, id).files) && Quiet(db.files, RecordDeath(db, id).files)
  {
    DeathAnchor(db, db.tasks[id], limit);
    var a := DeathAnchoring(db.files, db.tasks[id]);
    BuryKeeps(db.(files := a.files), id, a.fileId, limit);
  }

  lemma MarkDeadKeeps(db: Db, id: nat, limit: nat)
    requires Inv(db, limit)
    ensures Kept(db, After(db, MarkDead(db, id)), limit)
  {
    if MarkDead(db, id).Committed? {
      DiedOk(db.tasks[id], limit);
      PlaceKeeps(db, id, Died(db.tasks[id]), limit);
      DeathAfterMove(db, db.(tasks := Place(db.tasks, id, Died(db.tasks[id]))), id, limit);
    } else {
      RowsStaySurvive(db.tasks, db.tasks);
    }
  }

  lemma DeathAfterMove(db: Db, mid: Db, id: nat, limit: nat)
    requires Kept(db, mid, limit) && id in mid.tasks && mid.tasks[id].state.Dead?
    ensures Kept(db, RecordDeath(mid, id), limit)
  {
    RecordDeathKeeps(mid, id, limit);
    RecordDeathShape(mid, id);
    KeptThen(db, mid, RecordDeath(mid, id), limit);
  }

  /** A transaction followed by bookkeeping that removes no row. */
  lemma KeptThen(a: Db, b: Db, c: Db, limit: nat)
    requires Kept(a, b, limit) && Inv(c, limit) && (AllAnchored(b) ==> AllAnchored(c)) && Grows(b.files, c.files)
      && Quiet(b.files, c.files)
    requires forall i :: i in b.tasks ==>
      i in c.tasks && c.tasks[i].path == b.tasks[i].path && c.tasks[i].generation >= b.tasks[i].generation
    ensures Kept(a, c, limit)
  {
    forall i | i in a.tasks && !a.tasks[i].state.Done?
      ensures Survives(a.tasks[i], c.tasks)
    {
      var j :| j in b.tasks && b.tasks[j].path == a.tasks[i].path && b.tasks[j].generation >= a.tasks[i].generation;
      assert c.tasks[j].path == a.tasks[i].path;
    }
  }

  lemma HandleFailureKeeps(db: Db, id: nat, transient: bool, dueAt: int, limit: nat)
    requires Inv(db, limit)
    ensures Kept(db, After(db, HandleFailure(db, id, transient, dueAt, limit)), limit)
  {
    RowsStaySurvive(db.tasks, db.tasks);
    if TransitionError(db, id, InFlight).None? {
      if ShouldRetry(transient, FailureAttempts(db.tasks[id]), limit) {
        MarkRetryKeeps(db, id, dueAt, false, limit);
      } else {
        MarkDeadKeeps(db, id, limit);
      }
    }
  }
}
