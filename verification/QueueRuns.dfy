/** What holds over every run of the store. */
module QueueRuns {
  import opened Basics
  import opened Catalog
  import opened Paths
  import opened Queue
  import opened QueueInvariant
  import opened QueueLeases
  import opened QueueRecovery
  import opened QueueProducers
  import opened Anchors
  import opened QueueFence
  import opened QueueRemoval
  import opened RemovalCost

  // ----------------------------------------------------------------------- runs

  datatype Action =
    | WatchEvent(event: Event)
    | ScannerDiff(observation: Observation)
    | ClaimTasks(claimed: set<nat>, now: int, source: Source)
    | PrepareTask(task: nat, file: File)
    | MoveFile(moved: nat, generation: int, newPath: Path)
    | FinishTask(task: nat, clear: bool)
    | CommitReceipts(receipts: seq<Receipt>)
    | RetireTask(task: nat)
    | RefundDispatch(task: nat, dueAt: int)
    | FailLease(task: nat, transient: bool, dueAt: int)
    | ParkTasks(parked: seq<nat>)
    | ReleaseTasks(released: seq<nat>, state: TaskState)
    | RecoverCrash(inFlight: seq<nat>)
    | ExpandTask(task: nat, children: seq<Child>)
    | RedriveFiles(files: seq<nat>, priority: int)
    | UpgradeModel(files: seq<nat>, model: string, priority: int)
    | BackfillFile(backfilled: nat, generation: int, priority: int)
    | RemoveRoot(prefix: Path, listed: seq<Child>, paths: seq<Path>, priority: int)
    | SetVectorModel(moved: nat, generation: int, vectorModel: Option<string>)
    | ArchiveLetter(letter: nat, generation: int)

  /** What each bulk transition's own SELECT guarantees about its rows. */
  ghost predicate Enabled(db: Db, a: Action) {
    match a
    case ClaimTasks(ids, now, source) => forall i :: i in ids ==> Claimable(db.tasks, i, now, source)
    case ReleaseTasks(ids, state) => (state.RetryWait? || state.WaitingDep?) && Candidates(db.tasks, ids, state)
    case RecoverCrash(ids) => Candidates(db.tasks, ids, InFlight)
    case ExpandTask(id, children) =>
      id in db.tasks && db.tasks[id].state.InFlight? && IsDirectoryTask(db.tasks[id]) ==>
        Lists(db.files, DirectorySource(db.tasks[id]), DirectoryDestination(db.tasks[id]), children)
    case RemoveRoot(prefix, children, paths, priority) => ListsFor(db, prefix, children, paths, priority)
    case _ => true
  }

  ghost function Perform(db: Db, a: Action, limit: nat): Db {
    match a
    case WatchEvent(e) => After(db, EnqueueEvent(db, e))
    case ScannerDiff(o) => if Reconcile(db, o).ScanEnqueued? then Reconcile(db, o).db else db
    case ClaimTasks(ids, _, _) => Claim(db, ids)
    case PrepareTask(id, file) => After(db, Prepare(db, id, file))
    case MoveFile(f, generation, newPath) => After(db, RelocateFile(db, f, generation, newPath))
    case FinishTask(id, clear) => After(db, MarkDone(db, id, clear))
    case CommitReceipts(items) => After(db, CompleteBatch(db, items))
    case RetireTask(id) => After(db, Retire(db, id))
    case RefundDispatch(id, dueAt) => After(db, MarkRetry(db, id, dueAt, true))
    case FailLease(id, transient, dueAt) => After(db, HandleFailure(db, id, transient, dueAt, limit))
    case ParkTasks(ids) => ParkBatch(db, ids)
    case ReleaseTasks(ids, _) => ReleaseAll(db, ids)
    case RecoverCrash(ids) => RecoverAll(Recovery(db, 0, 0, 0), ids).db
    case ExpandTask(id, children) => After(db, ExpandDirectory(db, id, children))
    case RedriveFiles(ids, priority) => After(db, RedriveAll(db, ids, priority))
    case UpgradeModel(ids, model, priority) => After(db, UpgradeAll(db, ids, model, priority))
    case BackfillFile(f, generation, priority) => After(db, Backfill(db, f, generation, priority))
    case RemoveRoot(prefix, children, paths, priority) => After(db, RemovePrefix(db, prefix, children, paths, priority))
    case SetVectorModel(f, generation, model) => After(db, SetModel(db, f, generation, model))
    case ArchiveLetter(f, generation) => DropLetter(db, f, generation)
  }

  /** A root's removal leaves a task of this path ahead of its catalog row. */
  ghost predicate BreaksFence(db: Db, a: Action, p: Path) {
    a.RemoveRoot? && ValidRemoval(a.prefix, a.priority) && OutrunsAt(db, a.prefix, p)
  }

  ghost predicate Outruns(db: Db, a: Action) {
    exists p :: BreaksFence(db, a, p)
  }

  /** A root's removal keeps only the older of two rows parked at this path. */
  ghost predicate ForgetsAt(db: Db, a: Action, p: Path) {
    a.RemoveRoot? && ValidRemoval(a.prefix, a.priority) && Inside(a.prefix, p) && ForgottenAt(db, p)
  }

  ghost predicate Forgets(db: Db, a: Action) {
    exists p :: ForgetsAt(db, a, p)
  }

  lemma SetModelKeeps(db: Db, f: nat, generation: int, model: Option<string>, limit: nat)
    requires Inv(db, limit)
    ensures Kept(db, After(db, SetModel(db, f, generation, model)), limit)
  {
    if SetModel(db, f, generation, model).Committed? {
      RelabelKeeps(db, f, db.files[f].(model := model), limit);
    } else {
      SameCatalogKeeps(db, db, limit);
    }
  }

  /** Rewriting what a row says about its file, but not where, when or whether it shows. */
  lemma RelabelKeeps(db: Db, f: nat, file: File, limit: nat)
    requires Inv(db, limit) && f in db.files && file.path == db.files[f].path
      && file.generation == db.files[f].generation
    requires Visible(file) ==> Visible(db.files[f])
    ensures Kept(db, db.(files := db.files[f := file]), limit)
  {
    RaiseKeepsInv(db, f, file, limit);
    RowsStaySurvive(db.tasks, db.tasks);
  }

  lemma DropLetterKeeps(db: Db, f: nat, generation: int, limit: nat)
    requires Inv(db, limit)
    ensures Kept(db, DropLetter(db, f, generation), limit)
  {
    SameAnchors(db, DropLetter(db, f, generation));
    SameCatalogKeeps(db, DropLetter(db, f, generation), limit);
  }

  /** Every transaction but a root's removal keeps everything; only receipts make rows visible. */
  lemma OtherwiseKeeps(db: Db, a: Action, limit: nat)
    requires Inv(db, limit) && Enabled(db, a) && !a.RemoveRoot?
    ensures KeptAloud(db, Perform(db, a, limit), limit)
    ensures !a.CommitReceipts? ==> Quiet(db.files, Perform(db, a, limit).files)
  {
    RowsStaySurvive(db.tasks, db.tasks);
    match a
    case WatchEvent(e) => EventKeeps(db, e, limit);
    case ScannerDiff(o) => ReconcileKeeps(db, o, limit);
    case ClaimTasks(ids, now, source) => ClaimKeeps(db, ids, now, source, limit);
    case PrepareTask(id, file) => PrepareKeeps(db, id, file, limit);
    case MoveFile(f, generation, newPath) => RelocateKeeps(db, f, generation, newPath, limit);
    case FinishTask(id, clear) => MarkDoneKeeps(db, id, clear, limit);
    case CommitReceipts(items) => CompleteBatchKeeps(db, items, limit);
    case RetireTask(id) => RetireKeeps(db, id, limit);
    case RefundDispatch(id, dueAt) => MarkRetryKeeps(db, id, dueAt, true, limit);
    case FailLease(id, transient, dueAt) => HandleFailureKeeps(db, id, transient, dueAt, limit);
    case ParkTasks(ids) => ParkKeeps(db, ids, limit);
    case ReleaseTasks(ids, state) => ReleaseKeeps(db, ids, state, limit);
    case RecoverCrash(ids) => RecoverKeeps(Recovery(db, 0, 0, 0), ids, limit);
    case ExpandTask(id, children) => ExpandDirectoryKeeps(db, id, children, limit);
    case RedriveFiles(ids, priority) => RedriveAllKeeps(db, ids, priority, limit);
    case UpgradeModel(ids, model, priority) => UpgradeAllKeeps(db, ids, model, priority, limit);
    case BackfillFile(f, generation, priority) => BackfillKeeps(db, f, generation, priority, limit);
    case SetVectorModel(f, generation, model) => SetModelKeeps(db, f, generation, model, limit);
    case ArchiveLetter(f, generation) => DropLetterKeeps(db, f, generation, limit);
  }

  /**
   * Every transaction of the node keeps the invariant and the monotone catalog,
   * and only receipts make rows visible. It keeps the generation fence, and
   * drops no work without an equal or newer row, exactly unless it removes a
   * root over work that outruns its anchor, or over two parked rows.
   */
  lemma PerformKeeps(db: Db, a: Action, limit: nat)
    requires Inv(db, limit) && Enabled(db, a)
    ensures Inv(Perform(db, a, limit), limit) && Grows(db.files, Perform(db, a, limit).files)
    ensures !a.CommitReceipts? ==> Quiet(db.files, Perform(db, a, limit).files)
    ensures AllAnchored(db) ==> (AllAnchored(Perform(db, a, limit)) <==> !Outruns(db, a))
    ensures NothingLost(db.tasks, Perform(db, a, limit).tasks) <==> !Forgets(db, a)
  {
    if a.RemoveRoot? {
      RemovalKeeps(db, a.prefix, a.listed, a.paths, a.priority, limit);
      RootRemovalAnchors(db, a, limit);
    } else {
      OtherwiseKeeps(db, a, limit);
    }
    PerformForgets(db, a, limit);
  }

  lemma RootRemovalAnchors(db: Db, a: Action, limit: nat)
    requires Inv(db, limit) && Enabled(db, a) && a.RemoveRoot?
    ensures AllAnchored(db) ==> (AllAnchored(Perform(db, a, limit)) <==> !Outruns(db, a))
  {
    if AllAnchored(db) && ValidRemoval(a.prefix, a.priority) {
      RemovalAnchors(db, a.prefix, a.listed, a.paths, a.priority, limit);
      assert Outruns(db, a) <==> exists p :: OutrunsAt(db, a.prefix, p) by {
        assert forall p :: BreaksFence(db, a, p) <==> OutrunsAt(db, a.prefix, p);
      }
    }
  }

  lemma PerformForgets(db: Db, a: Action, limit: nat)
    requires Inv(db, limit) && Enabled(db, a)
    ensures NothingLost(db.tasks, Perform(db, a, limit).tasks) <==> !Forgets(db, a)
  {
    var after := Perform(db, a, limit).tasks;
    forall p
      ensures LosesNothingAt(db.tasks, after, p) <==> !ForgetsAt(db, a, p)
    {
      PerformLosesAt(db, a, limit, p);
    }
    NothingLostEverywhere(db.tasks, after);
  }

  /** At each path on its own: no work goes without an equal or newer row, exactly where none is forgotten. */
  lemma PerformLosesAt(db: Db, a: Action, limit: nat, p: Path)
    requires Inv(db, limit) && Enabled(db, a)
    ensures LosesNothingAt(db.tasks, Perform(db, a, limit).tasks, p) <==> !ForgetsAt(db, a, p)
  {
    if a.RemoveRoot? {
      if ValidRemoval(a.prefix, a.priority) {
        RemovalLosesAt(db, a.prefix, a.listed, a.paths, a.priority, limit, p);
      } else {
        RowsStaySurvive(db.tasks, db.tasks);
      }
    } else {
      OtherwiseKeeps(db, a, limit);
    }
  }

  /** Transitions that neither insert a row nor change an anchor. */
  predicate Moves(a: Action) {
    a.ClaimTasks? || a.MoveFile? || a.FinishTask? || a.CommitReceipts? || a.RetireTask? || a.RefundDispatch?
    || a.ParkTasks? || a.SetVectorModel? || a.ArchiveLetter?
  }

  lemma MovesKeepAnchors(db: Db, a: Action, limit: nat)
    requires Moves(a)
    ensures KeepsAnchors(db.tasks, Perform(db, a, limit).tasks)
  {
    match a
    case ClaimTasks(ids, now, source) =>
    case MoveFile(f, generation, newPath) =>
    case FinishTask(id, clear) =>
    case CommitReceipts(items) => CompletionKeepsAnchors(db, items);
    case RetireTask(id) =>
    case RefundDispatch(id, dueAt) =>
    case ParkTasks(ids) =>
    case SetVectorModel(f, generation, model) =>
    case ArchiveLetter(f, generation) =>
  }

  lemma OtherwiseFollows(db: Db, a: Action, limit: nat)
    requires Inv(db, limit) && Enabled(db, a) && !a.RemoveRoot? && !Moves(a)
    ensures Follows(db.tasks, Perform(db, a, limit))
  {
    KeepingFollows(db.tasks, db);
    match a
    case WatchEvent(e) => EventFollows(db, e, limit);
    case ScannerDiff(o) => if Reconcile(db, o).ScanEnqueued? { ReconcileFollows(db, o, limit); }
    case PrepareTask(id, file) => PrepareFollows(db, id, file);
    case FailLease(id, transient, dueAt) => FailureFollows(db, id, transient, dueAt, limit);
    case ReleaseTasks(ids, state) => ReleaseFollows(db, ids);
    case RecoverCrash(ids) => RecoveryFollows(Recovery(db, 0, 0, 0), ids, limit);
    case ExpandTask(id, children) => DirectoryFollows(db, id, children, limit);
    case RedriveFiles(ids, priority) => RedriveFollows(db, ids, priority, limit);
    case UpgradeModel(ids, model, priority) => UpgradeFollows(db, ids, model, priority, limit);
    case BackfillFile(f, generation, priority) => BackfillFollows(db, f, generation, priority);
  }

  /** At each path on its own: the generation fence stands, exactly unless a removal breaks it there. */
  lemma PerformAnchorsAt(db: Db, a: Action, limit: nat, p: Path)
    requires Inv(db, limit) && Enabled(db, a) && AnchoredAt(db, p)
    ensures AnchoredAt(Perform(db, a, limit), p) <==> !BreaksFence(db, a, p)
  {
    if a.RemoveRoot? {
      if ValidRemoval(a.prefix, a.priority) {
        RemovalAnchorsAt(db, a.prefix, a.listed, a.paths, a.priority, limit, p);
      }
    } else {
      OtherwiseKeeps(db, a, limit);
      if Moves(a) {
        MovesKeepAnchors(db, a, limit);
        KeepingFollows(db.tasks, Perform(db, a, limit));
      } else {
        OtherwiseFollows(db, a, limit);
      }
      FollowsAnchors(db, Perform(db, a, limit), p);
    }
  }

  ghost predicate Run(states: seq<Db>, actions: seq<Action>, limit: nat) {
    && |states| == |actions| + 1
    && forall k :: 0 <= k < |actions| ==>
      Enabled(states[k], actions[k]) && states[k + 1] == Perform(states[k], actions[k], limit)
  }

  const EMPTY := Db(map[], map[], map[])

  /**
   * Over every run from an empty database, root removals included: one row per
   * slot, exact attempt accounting within the retry limit, and catalog
   * generations that never decrease between any two moments.
   */
  lemma {:induction false} RunKeeps(states: seq<Db>, actions: seq<Action>, limit: nat, i: nat, j: nat)
    requires Run(states, actions, limit) && states[0] == EMPTY && i <= j <= |actions|
    ensures Inv(states[i], limit) && Inv(states[j], limit) && Grows(states[i].files, states[j].files)
    decreases j
  {
    if j == 0 {
    } else if i == j {
      RunKeeps(states, actions, limit, j - 1, j - 1);
      PerformKeeps(states[j - 1], actions[j - 1], limit);
    } else {
      RunKeeps(states, actions, limit, i, j - 1);
      PerformKeeps(states[j - 1], actions[j - 1], limit);
    }
  }

  /**
   * In every run, from any moment at which no task of a path is ahead of its
   * catalog row, none is until a removal breaks the fence at that very path.
   */
  lemma {:induction false} RunAnchorsAt(
    states: seq<Db>, actions: seq<Action>, limit: nat, i: nat, k: nat, p: Path)
    requires Run(states, actions, limit) && states[0] == EMPTY && i <= k <= |actions| && AnchoredAt(states[i], p)
    requires forall j :: i <= j < k ==> !BreaksFence(states[j], actions[j], p)
    ensures AnchoredAt(states[k], p)
    decreases k
  {
    if i < k {
      RunAnchorsAt(states, actions, limit, i, k - 1, p);
      RunKeeps(states, actions, limit, k - 1, k - 1);
      PerformAnchorsAt(states[k - 1], actions[k - 1], limit, p);
    }
  }

  /** No task and no dead letter ever runs ahead of its catalog row, until a removal outruns one. */
  lemma {:induction false} RunAnchors(states: seq<Db>, actions: seq<Action>, limit: nat, k: nat)
    requires Run(states, actions, limit) && states[0] == EMPTY && k <= |actions|
    requires forall j :: 0 <= j < k ==> !Outruns(states[j], actions[j])
    ensures AllAnchored(states[k])
    decreases k
  {
    if k > 0 {
      RunAnchors(states, actions, limit, k - 1);
      RunKeeps(states, actions, limit, k - 1, k - 1);
      PerformKeeps(states[k - 1], actions[k - 1], limit);
    }
  }

  /** Some row of the path has finished at least this generation. */
  ghost predicate Finished(tasks: map<nat, Task>, path: Path, generation: int) {
    exists i :: i in tasks && tasks[i].path == path && tasks[i].state.Done? && tasks[i].generation >= generation
  }

  /**
   * Queued work never just disappears: until a row of its path at least as new
   * has finished, such a row is in the table, in every run whose removals
   * forget nothing at that path.
   */
  lemma {:induction false} WorkIsFinishedOrKept(
    states: seq<Db>, actions: seq<Action>, limit: nat, i: nat, j: nat, id: nat)
    requires Run(states, actions, limit) && states[0] == EMPTY && i <= j <= |actions| && id in states[i].tasks
    requires forall k :: i <= k < j ==> !ForgetsAt(states[k], actions[k], states[i].tasks[id].path)
    ensures Survives(states[i].tasks[id], states[j].tasks)
      || exists k :: i <= k < j && Finished(states[k].tasks, states[i].tasks[id].path, states[i].tasks[id].generation)
    decreases j
  {
    var t := states[i].tasks[id];
    if i < j {
      WorkIsFinishedOrKept(states, actions, limit, i, j - 1, id);
      RunKeeps(states, actions, limit, j - 1, j - 1);
      PerformLosesAt(states[j - 1], actions[j - 1], limit, t.path);
      if Survives(t, states[j - 1].tasks) {
        SurvivesOrFinished(t, states[j - 1].tasks, states[j].tasks);
      }
    }
  }

  lemma SurvivesOrFinished(t: Task, before: map<nat, Task>, after: map<nat, Task>)
    requires LosesNothingAt(before, after, t.path) && Survives(t, before)
    ensures Survives(t, after) || Finished(before, t.path, t.generation)
  {
    var r :| r in before && before[r].path == t.path && before[r].generation >= t.generation;
    if before[r].state.Done? {
      assert Finished(before, t.path, t.generation);
    } else {
      assert Survives(before[r], after);
    }
  }

  /**
   * In flight, a row has spent its logged failures and charged crashes plus its own
   * charge; otherwise exactly those.
   */
  lemma AttemptsAreExact(states: seq<Db>, actions: seq<Action>, limit: nat, k: nat, id: nat)
    requires Run(states, actions, limit) && states[0] == EMPTY && k <= |actions| && id in states[k].tasks
    ensures var t := states[k].tasks[id];
      && (t.state.InFlight? ==> t.attempts == Consumed(t.log) + t.charge)
      && (!t.state.InFlight? && !t.state.Done? ==> t.attempts == Consumed(t.log))
      && TaskFailures(t.log) <= Max(1, limit) && Crashes(t.log) <= 2
      && (!t.state.Dead? ==> TaskFailures(t.log) < Max(1, limit) && Crashes(t.log) <= 1)
  {
    RunKeeps(states, actions, limit, k, k);
    assert RowOk(states[k].tasks[id], limit);
  }

  // ---------------------------------------------------------------- reachability

  /** Some run of transactions leads from one database to the other. */
  ghost predicate Leads(from: Db, to: Db, limit: nat) {
    exists states, actions :: Run(states, actions, limit) && states[0] == from && states[|actions|] == to
  }

  ghost predicate Reachable(db: Db, limit: nat) {
    Leads(EMPTY, db, limit)
  }

  lemma Here(db: Db, limit: nat)
    ensures Leads(db, db, limit)
  {
    assert Run([db], [], limit);
  }

  lemma Extend(from: Db, db: Db, a: Action, limit: nat)
    requires Leads(from, db, limit) && Enabled(db, a)
    ensures Leads(from, Perform(db, a, limit), limit)
  {
    var states, actions :| Run(states, actions, limit) && states[0] == from && states[|actions|] == db;
    var longer, more := states + [Perform(db, a, limit)], actions + [a];
    forall k | 0 <= k < |more|
      ensures Enabled(longer[k], more[k]) && longer[k + 1] == Perform(longer[k], more[k], limit)
    {
      if k < |actions| {
        assert longer[k] == states[k] && longer[k + 1] == states[k + 1] && more[k] == actions[k];
      }
    }
    assert Run(longer, more, limit);
  }
}
