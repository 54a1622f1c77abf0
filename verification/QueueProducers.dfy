/** Transactions that raise catalog rows and queue work for them. */
module QueueProducers {
  import opened Basics
  import opened Catalog
  import opened Queue
  import opened QueueInvariant
  import opened QueueLeases

  // ------------------------------------------------------------------ producers

  /** Bumping a row (by whatever hidden version of it) and queueing that generation. */
  lemma ReplaceAndEnqueueKeeps(db: Db, f: nat, file: File, e: Request, limit: nat)
    requires Inv(db, limit) && f in db.files && file.path == db.files[f].path && !Visible(file)
    requires file.generation >= db.files[f].generation && e.fileId == Some(f) && e.generation == file.generation
    ensures var mid := db.(files := db.files[f := file]);
      && Kept(db, After(mid, Enqueue(mid, e)), limit)
      && RowsStay(db.tasks, After(mid, Enqueue(mid, e)).tasks)
  {
    var mid := db.(files := db.files[f := file]);
    SetFileKeeps(db, f, file, limit);
    EnqueueKeeps(mid, e, limit);
    KeptChain(db, mid, After(mid, Enqueue(mid, e)), limit);
  }

  lemma ExpandOneKeeps(db: Db, child: Child, priority: int, limit: nat)
    requires Inv(db, limit) && ExpandOne(db, child, priority).Committed?
    ensures Kept(db, ExpandOne(db, child, priority).db, limit)
    ensures RowsStay(db.tasks, ExpandOne(db, child, priority).db.tasks)
  {
    var file := db.files[child.fileId];
    var raised := file.(generation := file.generation + 1, status := PendingFile);
    ReplaceAndEnqueueKeeps(db, child.fileId, raised, ChildRequest(db, child, priority), limit);
    assert Bump(db, child.fileId) == db.(files := db.files[child.fileId := raised]);
  }

  lemma UpgradeOneKeeps(db: Db, f: nat, model: string, priority: int, limit: nat)
    requires Inv(db, limit) && UpgradeOne(db, f, model, priority).Committed?
    requires f in db.files && UpgradeCandidate(db.files[f], model)
    ensures Kept(db, UpgradeOne(db, f, model, priority).db, limit)
    ensures RowsStay(db.tasks, UpgradeOne(db, f, model, priority).db.tasks)
  {
    var file := UpgradedFile(db.files[f]);
    ReplaceAndEnqueueKeeps(db, f, file, UpgradeRequest(db.files[f], f, priority), limit);
  }

  lemma {:induction false} ExpandAllKeeps(db: Db, children: seq<Child>, priority: int, limit: nat)
    requires Inv(db, limit)
    ensures Kept(db, After(db, ExpandAll(db, children, priority)), limit)
    ensures RowsStay(db.tasks, After(db, ExpandAll(db, children, priority)).tasks)
    decreases |children|
  {
    RowsStaySurvive(db.tasks, db.tasks);
    if children != [] && ExpandAll(db, children, priority).Committed? {
      var mid := ExpandOne(db, children[0], priority).db;
      ExpandOneKeeps(db, children[0], priority, limit);
      ExpandAllKeeps(mid, children[1..], priority, limit);
      KeptChain(db, mid, ExpandAll(db, children, priority).db, limit);
    }
  }

  lemma ExpandDirectoryKeeps(db: Db, id: nat, children: seq<Child>, limit: nat)
    requires Inv(db, limit)
    ensures Kept(db, After(db, ExpandDirectory(db, id, children)), limit)
  {
    RowsStaySurvive(db.tasks, db.tasks);
    if ExpandDirectory(db, id, children).Committed? {
      ExpandAllKeeps(db, children, db.tasks[id].priority, limit);
      var mid := ExpandAll(db, children, db.tasks[id].priority).db;
      MarkDoneKeeps(mid, id, true, limit);
      KeptChain(db, mid, After(mid, MarkDone(mid, id, true)), limit);
    }
  }

  lemma RedriveOneKeeps(db: Db, f: nat, priority: int, limit: nat)
    requires Inv(db, limit)
    ensures Kept(db, After(db, RedriveOne(db, f, priority)), limit)
    ensures RowsStay(db.tasks, After(db, RedriveOne(db, f, priority)).tasks)
  {
    RowsStaySurvive(db.tasks, db.tasks);
    if f in db.dead && f in db.files && db.files[f].generation <= db.dead[f].generation {
      var e := Request(Some(f), db.dead[f].path, Upsert, None, db.files[f].generation, priority, 0);
      var queued := After(db, Enqueue(db, e));
      EnqueueKeeps(db, e, limit);
      TakeLetterKeeps(queued, f, limit);
      KeptChain(db, queued, LetterTaken(queued, f), limit);
      SameCatalogKeeps(db, db, limit);
    }
  }

  /** A redriven letter is gone and its row hidden. */
  ghost function LetterTaken(db: Db, f: nat): Db
    requires f in db.files
  {
    db.(dead := db.dead - {f}, files := db.files[f := db.files[f].(status := PendingFile)])
  }

  lemma TakeLetterKeeps(db: Db, f: nat, limit: nat)
    requires Inv(db, limit) && f in db.files
    ensures Kept(db, LetterTaken(db, f), limit)
  {
    var hidden := db.(files := db.files[f := db.files[f].(status := PendingFile)]);
    SetFileKeeps(db, f, db.files[f].(status := PendingFile), limit);
    SameAnchors(hidden, LetterTaken(db, f));
    KeptThen(db, hidden, LetterTaken(db, f), limit);
  }

  lemma {:induction false} RedriveAllKeeps(db: Db, ids: seq<nat>, priority: int, limit: nat)
    requires Inv(db, limit)
    ensures Kept(db, After(db, RedriveAll(db, ids, priority)), limit)
    decreases |ids|
  {
    RowsStaySurvive(db.tasks, db.tasks);
    if ids != [] && RedriveAll(db, ids, priority).Committed? {
      var mid := RedriveOne(db, ids[0], priority).db;
      RedriveOneKeeps(db, ids[0], priority, limit);
      RedriveAllKeeps(mid, ids[1..], priority, limit);
      KeptChain(db, mid, RedriveAll(db, ids, priority).db, limit);
    }
  }

  lemma {:induction false} UpgradeAllKeeps(db: Db, ids: seq<nat>, model: string, priority: int, limit: nat)
    requires Inv(db, limit)
    ensures Kept(db, After(db, UpgradeAll(db, ids, model, priority)), limit)
    decreases |ids|
  {
    RowsStaySurvive(db.tasks, db.tasks);
    if ids != [] && UpgradeAll(db, ids, model, priority).Committed? {
      var mid := UpgradeOne(db, ids[0], model, priority).db;
      if ids[0] in db.files && UpgradeCandidate(db.files[ids[0]], model) {
        UpgradeOneKeeps(db, ids[0], model, priority, limit);
      }
      UpgradeAllKeeps(mid, ids[1..], model, priority, limit);
      KeptChain(db, mid, UpgradeAll(db, ids, model, priority).db, limit);
    }
  }

  lemma BackfillKeeps(db: Db, f: nat, generation: int, priority: int, limit: nat)
    requires Inv(db, limit)
    ensures Kept(db, After(db, Backfill(db, f, generation, priority)), limit)
  {
    RowsStaySurvive(db.tasks, db.tasks);
    if f in db.files && db.files[f].generation == generation {
      var file := db.files[f].(generation := generation + 1, status := PendingFile, indexedAt := None);
      ReplaceAndEnqueueKeeps(db, f, file, Request(Some(f), file.path, Upsert, None, generation + 1, priority, 0),
        limit);
    }
  }
}
