/** Row ids: a task's row keeps its path for as long as it stays in the table. */
module RowIds {
  import opened Basics
  import opened Catalog
  import opened Paths
  import opened Queue
  import opened QueueInvariant
  import opened QueueLeases
  import opened QueueProducers
  import opened QueueFence
  import opened QueueRemoval
  import opened QueueRuns

  ghost predicate KeepsPaths(before: map<nat, Task>, after: map<nat, Task>) {
    forall i :: i in before && i in after ==> after[i].path == before[i].path
  }

  /** Rows may leave, but none is new. */
  ghost predicate Shrinks(before: map<nat, Task>, after: map<nat, Task>) {
    forall i :: i in after ==> i in before && after[i].path == before[i].path
  }

  lemma GrowThenShrink(a: map<nat, Task>, b: map<nat, Task>, c: map<nat, Task>)
    requires RowsStay(a, b) && Shrinks(b, c)
    ensures KeepsPaths(a, c)
  {
  }

  // --------------------------------------------------------- transitions insert nothing

  lemma {:induction false} CompletionShrinks(db: Db, items: seq<Receipt>)
    ensures Shrinks(db.tasks, After(db, CompleteBatch(db, items)).tasks)
    decreases |items|
  {
    if items != [] && CompleteOne(db, items[0]).Committed? {
      CompleteOneShape(db, items[0]);
      CompletionShrinks(CompleteOne(db, items[0]).db, items[1..]);
    }
  }

  lemma DeathShrinks(db: Db, id: nat)
    requires id in db.tasks
    ensures Shrinks(db.tasks, RecordDeath(db, id).tasks)
  {
    RecordDeathShape(db, id);
  }

  lemma FailureShrinks(db: Db, id: nat, transient: bool, dueAt: int, limit: nat)
    ensures Shrinks(db.tasks, After(db, HandleFailure(db, id, transient, dueAt, limit)).tasks)
  {
    if id in db.tasks {
      DeathShrinks(db.(tasks := Place(db.tasks, id, Died(db.tasks[id]))), id);
    }
  }

  lemma ReleaseOneShrinks(db: Db, id: nat)
    requires id in db.tasks
    ensures Shrinks(db.tasks, ReleaseOne(db, id).tasks)
  {
    var slot := Slot(db.tasks, db.tasks[id].path, Pending);
    assert slot.Some? ==> InSlot(db.tasks, slot.value, db.tasks[id].path, Pending);
  }

  lemma {:induction false} ReleaseShrinks(db: Db, ids: seq<nat>)
    ensures Shrinks(db.tasks, ReleaseAll(db, ids).tasks)
    decreases |ids|
  {
    if ids != [] && ids[0] in db.tasks {
      ReleaseOneShrinks(db, ids[0]);
      ReleaseShrinks(ReleaseOne(db, ids[0]), ids[1..]);
    }
  }

  lemma RecoverOneShrinks(r: Recovery, id: nat)
    requires id in r.db.tasks
    ensures Shrinks(r.db.tasks, RecoverOne(r, id).db.tasks)
  {
    DeathShrinks(r.db.(tasks := Place(r.db.tasks, id, Crashed(r.db.tasks[id]))), id);
  }

  lemma {:induction false} RecoveryShrinks(r: Recovery, ids: seq<nat>)
    ensures Shrinks(r.db.tasks, RecoverAll(r, ids).db.tasks)
    decreases |ids|
  {
    if ids != [] && ids[0] in r.db.tasks {
      RecoverOneShrinks(r, ids[0]);
      RecoveryShrinks(RecoverOne(r, ids[0]), ids[1..]);
    }
  }

  // ------------------------------------------------------------ producers remove nothing

  lemma EventStays(db: Db, e: Event, limit: nat)
    requires Inv(db, limit)
    ensures KeepsPaths(db.tasks, After(db, EnqueueEvent(db, e)).tasks)
  {
    EventKeeps(db, e, limit);
  }

  lemma ReconcileStays(db: Db, o: Observation, limit: nat)
    requires Inv(db, limit)
    ensures Reconcile(db, o).ScanEnqueued? ==> KeepsPaths(db.tasks, Reconcile(db, o).db.tasks)
  {
    ReconcileKeeps(db, o, limit);
  }

  lemma {:induction false} RedriveStays(db: Db, ids: seq<nat>, priority: int, limit: nat)
    requires Inv(db, limit)
    ensures RowsStay(db.tasks, After(db, RedriveAll(db, ids, priority)).tasks)
    decreases |ids|
  {
    if ids != [] && RedriveAll(db, ids, priority).Committed? {
      RedriveOneKeeps(db, ids[0], priority, limit);
      RedriveStays(RedriveOne(db, ids[0], priority).db, ids[1..], priority, limit);
    }
  }

  lemma {:induction false} UpgradeStays(db: Db, ids: seq<nat>, model: string, priority: int)
    ensures RowsStay(db.tasks, After(db, UpgradeAll(db, ids, model, priority)).tasks)
    decreases |ids|
  {
    if ids != [] && UpgradeAll(db, ids, model, priority).Committed? {
      var f := ids[0];
      if f in db.files && UpgradeCandidate(db.files[f], model) {
        EnqueueRowsStay(db.(files := db.files[f := UpgradedFile(db.files[f])]),
          UpgradeRequest(db.files[f], f, priority));
      }
      UpgradeStays(UpgradeOne(db, f, model, priority).db, ids[1..], model, priority);
    }
  }

  lemma BackfillStays(db: Db, f: nat, generation: int, priority: int)
    ensures RowsStay(db.tasks, After(db, Backfill(db, f, generation, priority)).tasks)
  {
    if f in db.files && db.files[f].generation == generation {
      var file := db.files[f].(generation := generation + 1, status := PendingFile, indexedAt := None);
      EnqueueRowsStay(db.(files := db.files[f := file]),
        Request(Some(f), file.path, Upsert, None, generation + 1, priority, 0));
    }
  }

  lemma ExpandKeepsPaths(db: Db, id: nat, children: seq<Child>, limit: nat)
    requires Inv(db, limit)
    ensures KeepsPaths(db.tasks, After(db, ExpandDirectory(db, id, children)).tasks)
  {
    if ExpandDirectory(db, id, children).Committed? {
      ExpandAllKeeps(db, children, db.tasks[id].priority, limit);
      var mid := ExpandAll(db, children, db.tasks[id].priority).db;
      GrowThenShrink(db.tasks, mid.tasks, MarkDone(mid, id, true).db.tasks);
    }
  }

  // ---------------------------------------------------------------------- removals

  /** A removal may drop a finished or parked row inside the root, and reuse its id for the next path's remove. */
  predicate Displaces(db: Db, a: Action, id: nat) {
    && a.RemoveRoot? && id in db.tasks && Inside(a.prefix, db.tasks[id].path)
    && (db.tasks[id].state.Done? || db.tasks[id].state.RetryWait? || db.tasks[id].state.WaitingDep?)
  }

  predicate Stable(t: Task) {
    t.state.Pending? || t.state.InFlight? || t.state.Dead?
  }

  lemma FenceKeepsRow(db: Db, p: Path, priority: int, id: nat)
    requires UniqueSlots(db.tasks) && FencePath(db, p, priority).Committed? && id in db.tasks
      && (Stable(db.tasks[id]) || db.tasks[id].path != p)
    ensures var after := FencePath(db, p, priority).db.tasks;
      id in after && after[id].path == db.tasks[id].path && after[id].state == db.tasks[id].state
  {
    FenceUntouched(db, p, priority, db.tasks[id].path);
    if db.tasks[id].path == p {
      FenceIs(db, p, priority);
      RetiredRows(db, p);
      if db.tasks[id].state.Dead? {
        DeadRowStays(db, p, id);
      } else {
        assert RunnableAt(db.tasks, p, id);
      }
      EnqueueRowsStay(RetiredDb(db, p), Removal(p, NewestActive(db.tasks, p) + 1, priority));
    }
  }

  lemma {:induction false} FencesKeepRow(db: Db, paths: seq<Path>, priority: int, id: nat)
    requires UniqueSlots(db.tasks) && FenceAll(db, paths, priority).Committed? && id in db.tasks
    requires Stable(db.tasks[id]) || db.tasks[id].path !in paths
    ensures var after := FenceAll(db, paths, priority).db.tasks; id in after && after[id].path == db.tasks[id].path
    decreases |paths|
  {
    if paths != [] {
      assert paths[0] in paths && forall p :: p in paths[1..] ==> p in paths;
      FenceKeepsRow(db, paths[0], priority, id);
      FenceUntouched(db, paths[0], priority, paths[0]);
      FencesKeepRow(FencePath(db, paths[0], priority).db, paths[1..], priority, id);
    }
  }

  lemma RemovalKeepsRow(db: Db, a: Action, limit: nat, id: nat)
    requires Inv(db, limit) && Enabled(db, a) && a.RemoveRoot? && id in db.tasks && !Displaces(db, a, id)
    ensures id in Perform(db, a, limit).tasks && Perform(db, a, limit).tasks[id].path == db.tasks[id].path
  {
    if RemovePrefix(db, a.prefix, a.listed, a.paths, a.priority).Committed? {
      ExpansionKeepsRow(db, a.listed, a.priority, limit, id);
      FencesKeepRow(Expanded(db, a.listed, a.priority), a.paths, a.priority, id);
    }
  }

  lemma ExpansionKeepsRow(db: Db, children: seq<Child>, priority: int, limit: nat, id: nat)
    requires Inv(db, limit) && ExpandAll(db, children, priority).Committed? && id in db.tasks
    ensures var mid := Expanded(db, children, priority);
      && UniqueSlots(mid.tasks) && id in mid.tasks
      && mid.tasks[id].path == db.tasks[id].path && mid.tasks[id].state == db.tasks[id].state
  {
    ExpandAllKeeps(db, children, priority, limit);
  }

  // ------------------------------------------------------------------ every transaction

  predicate Produces(a: Action) {
    a.WatchEvent? || a.ScannerDiff? || a.ExpandTask? || a.RedriveFiles? || a.UpgradeModel? || a.BackfillFile?
  }

  lemma ProducersKeepPaths(db: Db, a: Action, limit: nat)
    requires Inv(db, limit) && Produces(a)
    ensures KeepsPaths(db.tasks, Perform(db, a, limit).tasks)
  {
    match a
    case WatchEvent(e) => EventStays(db, e, limit);
    case ScannerDiff(o) => ReconcileStays(db, o, limit);
    case ExpandTask(id, children) => ExpandKeepsPaths(db, id, children, limit);
    case _ => CatalogProducersStay(db, a, limit);
  }

  lemma CatalogProducersStay(db: Db, a: Action, limit: nat)
    requires Inv(db, limit) && (a.RedriveFiles? || a.UpgradeModel? || a.BackfillFile?)
    ensures KeepsPaths(db.tasks, Perform(db, a, limit).tasks)
  {
    match a
    case RedriveFiles(ids, priority) => RedriveStays(db, ids, priority, limit);
    case UpgradeModel(ids, model, priority) => UpgradeStays(db, ids, model, priority);
    case BackfillFile(f, generation, priority) => BackfillStays(db, f, generation, priority);
  }

  lemma TransitionsShrink(db: Db, a: Action, limit: nat)
    requires !Produces(a) && !a.RemoveRoot?
    ensures Shrinks(db.tasks, Perform(db, a, limit).tasks)
  {
    match a
    case ClaimTasks(ids, now, source) =>
    case PrepareTask(id, file) =>
    case MoveFile(f, generation, newPath) =>
    case FinishTask(id, clear) =>
    case CommitReceipts(items) => CompletionShrinks(db, items);
    case RetireTask(id) =>
    case RefundDispatch(id, dueAt) =>
    case FailLease(id, transient, dueAt) => FailureShrinks(db, id, transient, dueAt, limit);
    case ParkTasks(ids) =>
    case ReleaseTasks(ids, state) => ReleaseShrinks(db, ids);
    case RecoverCrash(ids) => RecoveryShrinks(Recovery(db, 0, 0, 0), ids);
    case SetVectorModel(f, generation, model) =>
    case ArchiveLetter(f, generation) =>
  }

  /** In every transaction that leaves it in the table, a row keeps its path. */
  lemma RowKeepsPath(db: Db, a: Action, limit: nat, id: nat)
    requires Inv(db, limit) && Enabled(db, a) && !Displaces(db, a, id)
    requires id in db.tasks && id in Perform(db, a, limit).tasks
    ensures Perform(db, a, limit).tasks[id].path == db.tasks[id].path
  {
    if a.RemoveRoot? {
      RemovalKeepsRow(db, a, limit, id);
    } else if Produces(a) {
      ProducersKeepPaths(db, a, limit);
    } else {
      TransitionsShrink(db, a, limit);
    }
  }

  /** The row leaves the table in this step, or may be replaced within it. */
  ghost predicate DropsAt(states: seq<Db>, actions: seq<Action>, k: nat, id: nat)
    requires k < |actions| < |states|
  {
    id in states[k].tasks && (id !in states[k + 1].tasks || Displaces(states[k], actions[k], id))
  }

  lemma StepKeepsPath(states: seq<Db>, actions: seq<Action>, limit: nat, k: nat, id: nat)
    requires Run(states, actions, limit) && states[0] == EMPTY && k < |actions| && id in states[k].tasks
    requires !DropsAt(states, actions, k, id)
    ensures id in states[k + 1].tasks && states[k + 1].tasks[id].path == states[k].tasks[id].path
  {
    RunKeeps(states, actions, limit, k, k);
    RowKeepsPath(states[k], actions[k], limit, id);
  }

  /** A row id that names another path later was dropped in between. */
  lemma {:induction false} RowKeepsPathInRun(states: seq<Db>, actions: seq<Action>, limit: nat, i: nat, j: nat, id: nat)
    requires Run(states, actions, limit) && states[0] == EMPTY && i <= j <= |actions| && id in states[i].tasks
    requires forall k :: i <= k < j ==> !DropsAt(states, actions, k, id)
    ensures id in states[j].tasks && states[j].tasks[id].path == states[i].tasks[id].path
    decreases j
  {
    if i < j {
      RowKeepsPathInRun(states, actions, limit, i, j - 1, id);
      StepKeepsPath(states, actions, limit, j - 1, id);
    }
  }
}
