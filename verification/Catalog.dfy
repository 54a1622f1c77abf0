/**
 * The durable truth: catalog rows, task rows and dead letters, and the
 * invariant every transaction keeps.
 */
module Catalog {
  import opened Basics

  type Path = string

  datatype FileKind = TextKind | ImageKind | VideoKind | OtherKind

  datatype FileStatus = Indexed | PendingFile | Failed | Deleted

  /** `meta` stands for size, mtime, inode, sample hash and extractor version. */
  datatype File = File(
    path: Path, kind: FileKind, generation: int, status: FileStatus,
    indexedAt: Option<int>, model: Option<string>, meta: int)

  datatype TaskOp = Upsert | Remove | Relocate

  datatype TaskState = Pending | InFlight | RetryWait | WaitingDep | Done | Dead

  /** One entry of the row's persisted attempts log. */
  datatype Failure = TaskFailure | ProcessCrash(charge: int)

  datatype Task = Task(
    fileId: Option<nat>, path: Path, op: TaskOp, oldPath: Option<Path>, generation: int,
    state: TaskState, priority: int, attempts: int, crashCount: int, dueAt: int,
    charge: int, log: seq<Failure>)

  datatype DeadLetter = DeadLetter(path: Path, generation: int)

  datatype Db = Db(files: map<nat, File>, tasks: map<nat, Task>, dead: map<nat, DeadLetter>)

  datatype StoreError = NotFound | InvalidTransition | StaleGeneration | TaskMismatch | PathOwnership | Rejected

  /** A transaction either commits a new database or rolls back with an error. */
  datatype Outcome = Committed(db: Db) | RolledBack(error: StoreError)

  function After(db: Db, outcome: Outcome): Db {
    if outcome.Committed? then outcome.db else db
  }

  predicate IsActive(state: TaskState) {
    state.Pending? || state.InFlight? || state.RetryWait? || state.WaitingDep?
  }

  /** What the search layer treats as the current result of a finished task. */
  predicate Visible(file: File) {
    file.status.Indexed? && file.indexedAt.Some?
  }

  // ---------------------------------------------------------------- queries

  predicate InSlot(tasks: map<nat, Task>, id: nat, path: Path, state: TaskState) {
    id in tasks && tasks[id].path == path && tasks[id].state == state
  }

  /** The row occupying the unique (path, state) slot, if any. */
  ghost function Slot(tasks: map<nat, Task>, path: Path, state: TaskState): Option<nat> {
    if id: nat :| InSlot(tasks, id, path, state) then Some(id) else None
  }

  ghost function FileAt(files: map<nat, File>, path: Path): Option<nat> {
    if id: nat :| id in files && files[id].path == path then Some(id) else None
  }

  /** COALESCE(MAX(generation),0) over the given rows. */
  ghost function MaxGeneration(tasks: map<nat, Task>, ids: set<nat>): (g: int)
    requires ids <= tasks.Keys
    ensures g >= 0
    ensures forall i :: i in ids ==> tasks[i].generation <= g
    ensures g == 0 || exists i :: i in ids && tasks[i].generation == g
  {
    if ids == {} then 0 else
    var i :| i in ids;
    Max(tasks[i].generation, MaxGeneration(tasks, ids - {i}))
  }

  // -------------------------------------------------------------- invariant

  ghost predicate UniqueSlots(tasks: map<nat, Task>) {
    forall i, j :: i in tasks && j in tasks && tasks[i].path == tasks[j].path && tasks[i].state == tasks[j].state ==>
      i == j
  }

  ghost predicate UniquePaths(files: map<nat, File>) {
    forall f, g :: f in files && g in files && files[f].path == files[g].path ==> f == g
  }

  function TaskFailures(log: seq<Failure>): nat {
    if log == [] then 0
    else TaskFailures(log[..|log| - 1]) + if log[|log| - 1].TaskFailure? then 1 else 0
  }

  function Crashes(log: seq<Failure>): nat {
    if log == [] then 0
    else Crashes(log[..|log| - 1]) + if log[|log| - 1].ProcessCrash? then 1 else 0
  }

  /** Executions the row has to answer for: real failures and crashed charged leases. */
  function Consumed(log: seq<Failure>): int {
    if log == [] then 0
    else Consumed(log[..|log| - 1]) + if log[|log| - 1].TaskFailure? then 1 else log[|log| - 1].charge
  }

  /**
   * Exact attempt accounting. A lease in flight carries its charge on top of
   * what the log explains; a finished row may keep the charge it ended with.
   * `limit` is the retry policy's bound on transient attempts.
   */
  ghost predicate RowOk(t: Task, limit: nat) {
    && t.charge in {0, 1}
    && t.generation >= 1
    && Consumed(t.log) >= TaskFailures(t.log)
    && t.crashCount == Crashes(t.log)
    && (t.state.InFlight? ==> t.attempts == Consumed(t.log) + t.charge)
    && (t.state.Done? ==> t.attempts == Consumed(t.log) || t.attempts == Consumed(t.log) + t.charge)
    && (!t.state.InFlight? && !t.state.Done? ==> t.attempts == Consumed(t.log))
    && (if t.state.Dead?
        then TaskFailures(t.log) <= Max(1, limit) && t.crashCount <= 2
        else TaskFailures(t.log) < Max(1, limit) && t.crashCount <= 1)
  }

  predicate Rooted(t: Task, files: map<nat, File>) {
    t.fileId.Some? ==> t.fileId.value in files
  }

  /** A task anchored to a catalog row never runs ahead of that row. */
  predicate AnchorOk(t: Task, files: map<nat, File>) {
    t.fileId.Some? ==> t.fileId.value in files && t.generation <= files[t.fileId.value].generation
  }

  /** What every transaction keeps. */
  ghost predicate Inv(db: Db, limit: nat) {
    && UniqueSlots(db.tasks)
    && UniquePaths(db.files)
    && (forall f :: f in db.files ==> db.files[f].generation >= 1)
    && (forall i :: i in db.tasks ==> RowOk(db.tasks[i], limit) && Rooted(db.tasks[i], db.files))
    && (forall f :: f in db.dead ==> f in db.files && db.dead[f].generation >= 1)
  }

  /** The generation fence: nothing runs ahead of its catalog row. Only a root's removal can break it. */
  ghost predicate AllAnchored(db: Db) {
    && (forall i :: i in db.tasks ==> AnchorOk(db.tasks[i], db.files))
    && (forall f :: f in db.dead ==> f in db.files && db.dead[f].generation <= db.files[f].generation)
  }

  /** The same of the rows of one path. */
  ghost predicate AnchoredAt(db: Db, p: Path) {
    forall i :: i in db.tasks && db.tasks[i].path == p ==> AnchorOk(db.tasks[i], db.files)
  }

  // ------------------------------------------------------ two-state relations

  /** Catalog rows are never lost and their generations never decrease. */
  ghost predicate Grows(before: map<nat, File>, after: map<nat, File>) {
    forall f :: f in before ==> f in after && before[f].generation <= after[f].generation
  }

  /** No row becomes visible, and no visible row changes generation. */
  ghost predicate Quiet(before: map<nat, File>, after: map<nat, File>) {
    forall f :: f in after && Visible(after[f]) ==>
      f in before && Visible(before[f]) && before[f].generation == after[f].generation
  }

  /** Some row of the same path still stands for generation t.generation or later. */
  ghost predicate Survives(t: Task, tasks: map<nat, Task>) {
    exists j :: j in tasks && tasks[j].path == t.path && tasks[j].generation >= t.generation
  }

  ghost predicate NothingLost(before: map<nat, Task>, after: map<nat, Task>) {
    forall i :: i in before && !before[i].state.Done? ==> Survives(before[i], after)
  }

  /** What every transaction keeps, except that receipts make rows visible and root removals may not fence. */
  ghost predicate Kept(before: Db, after: Db, limit: nat) {
    && Inv(after, limit)
    && (AllAnchored(before) ==> AllAnchored(after))
    && Grows(before.files, after.files)
    && Quiet(before.files, after.files)
    && NothingLost(before.tasks, after.tasks)
  }

  // ----------------------------------------------------------- basic lemmas

  lemma SlotIs(tasks: map<nat, Task>, id: nat)
    requires UniqueSlots(tasks) && id in tasks
    ensures Slot(tasks, tasks[id].path, tasks[id].state) == Some(id)
  {
    assert InSlot(tasks, id, tasks[id].path, tasks[id].state);
  }

  lemma FileAtIs(files: map<nat, File>, id: nat)
    requires UniquePaths(files) && id in files
    ensures FileAt(files, files[id].path) == Some(id)
  {
  }

  lemma Logged(log: seq<Failure>, entry: Failure)
    ensures TaskFailures(log + [entry]) == TaskFailures(log) + if entry.TaskFailure? then 1 else 0
    ensures Crashes(log + [entry]) == Crashes(log) + if entry.ProcessCrash? then 1 else 0
    ensures Consumed(log + [entry]) == Consumed(log) + if entry.TaskFailure? then 1 else entry.charge
  {
    var longer := log + [entry];
    assert longer[..|longer| - 1] == log;
  }
}
