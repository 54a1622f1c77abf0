/**
 * What each store transaction does to the database: the specification the
 * Store class is proved against, and the invariant each transaction keeps.
 */
module Queue {
  import opened Basics
  import opened Catalog
  import opened Paths

  // ------------------------------------------------------------ row plumbing

  /** Write `row` under `id`, clearing whatever else held its (path, state) slot. */
  ghost function Place(tasks: map<nat, Task>, id: nat, row: Task): map<nat, Task> {
    (map j | j in tasks && (j == id || tasks[j].path != row.path || tasks[j].state != row.state) :: tasks[j])[id := row]
  }

  /** clearOlderStateSlot refuses to clear a newer occupant. */
  ghost predicate NewerOccupant(tasks: map<nat, Task>, id: nat, t: Task, state: TaskState) {
    exists j :: j in tasks && j != id && tasks[j].path == t.path && tasks[j].state == state
      && tasks[j].generation > t.generation
  }

  /** taskForTransition. */
  ghost function TransitionError(db: Db, id: nat, expected: TaskState): Option<StoreError> {
    if id !in db.tasks then Some(NotFound)
    else if db.tasks[id].state != expected then Some(InvalidTransition)
    else None
  }

  ghost function Bump(db: Db, f: nat): Db
    requires f in db.files
  {
    db.(files := db.files[f := db.files[f].(generation := db.files[f].generation + 1, status := PendingFile)])
  }

  // ----------------------------------------------------------------- enqueue

  datatype Request = Request(
    fileId: Option<nat>, path: Path, op: TaskOp, oldPath: Option<Path>,
    generation: int, priority: int, dueAt: int)

  predicate ValidRequest(e: Request) {
    && e.path != "" && e.generation >= 1 && e.priority >= 0
    && (if e.op.Relocate? then e.oldPath.Some? && e.oldPath.value != "" else e.oldPath.None?)
  }

  function NewRow(e: Request): Task {
    Task(e.fileId, e.path, e.op, e.oldPath, e.generation, Pending, e.priority, 0, 0, e.dueAt, 1, [])
  }

  /** The ON CONFLICT clause: the newer generation wins, the older keeps its place. */
  function Coalesce(t: Task, e: Request): Task {
    var kept := t.(priority := Min(t.priority, e.priority), dueAt := Min(t.dueAt, e.dueAt));
    if e.generation < t.generation then kept
    else
      var renamed := kept.(fileId := if e.fileId.Some? then e.fileId else t.fileId, op := e.op, oldPath := e.oldPath);
      if e.generation == t.generation then renamed
      else renamed.(generation := e.generation, charge := 1, attempts := 0, crashCount := 0, log := [])
  }

  ghost function Enqueue(db: Db, e: Request): Outcome {
    if !ValidRequest(e) then RolledBack(Rejected)
    else match Slot(db.tasks, e.path, Pending)
      case None => Committed(db.(tasks := db.tasks[NextRowId(db.tasks.Keys) := NewRow(e)]))
      case Some(id) =>
        if id in db.tasks then Committed(db.(tasks := db.tasks[id := Coalesce(db.tasks[id], e)]))
        else RolledBack(NotFound)
  }

  // ------------------------------------------------------------- watch events

  datatype Event = Event(path: Path, op: TaskOp, oldPath: Option<Path>, generation: int, priority: int, dueAt: int)

  datatype Allocation = Allocated(db: Db, request: Request) | Refused(error: StoreError)

  function CatalogPath(path: Path, op: TaskOp, oldPath: Option<Path>): Path {
    if op.Relocate? && oldPath.Some? then oldPath.value else path
  }

  ghost function RowsAt(tasks: map<nat, Task>, paths: set<Path>): set<nat> {
    set i | i in tasks && tasks[i].path in paths
  }

  /** What an event asks for, before anything pays for it. */
  function PlainRequest(e: Event): Request {
    Request(None, e.path, e.op, e.oldPath, e.generation, e.priority, e.dueAt)
  }

  function EventPaths(e: Event): set<Path> {
    if e.op.Relocate? && e.oldPath.Some? then {e.path, e.oldPath.value} else {e.path}
  }

  /** The generation an event's task receives, and the catalog bump that pays for it. */
  ghost function Allocate(db: Db, e: Event): Allocation {
    match FileAt(db.files, CatalogPath(e.path, e.op, e.oldPath))
    case Some(f) =>
      if f !in db.files then Refused(NotFound) else
      Allocated(Bump(db, f), PlainRequest(e).(fileId := Some(f), generation := db.files[f].generation + 1))
    case None => AllocateUnlisted(db, e)
  }

  /** With no catalog row at the event's path, the pending row's own file pays, or nobody does. */
  ghost function AllocateUnlisted(db: Db, e: Event): Allocation {
    var pending := Slot(db.tasks, e.path, Pending);
    if pending.Some? && pending.value in db.tasks && db.tasks[pending.value].fileId.Some? then
      var p := db.tasks[pending.value];
      var f := p.fileId.value;
      if f !in db.files then Refused(NotFound) else
      var anchored := PlainRequest(e).(fileId := Some(f), generation := db.files[f].generation + 1);
      Allocated(Bump(db, f),
        if p.op.Relocate? && e.op.Upsert? then anchored.(op := Relocate, oldPath := p.oldPath) else anchored)
    else
      var maximum := MaxGeneration(db.tasks, RowsAt(db.tasks, EventPaths(e)));
      Allocated(db, PlainRequest(e).(generation := Max(e.generation, maximum + 1)))
  }

  /** EnqueueAndBumpGeneration. */
  ghost function EnqueueEvent(db: Db, e: Event): Outcome {
    var a := Allocate(db, e);
    if a.Refused? then RolledBack(a.error) else Enqueue(a.db, a.request)
  }

  // ------------------------------------------------------------ scanner diffs

  datatype Seen = Seen(fileId: nat, generation: int)

  datatype Observation = Observation(path: Path, oldPath: Option<Path>, op: TaskOp, seen: Option<Seen>, priority: int)

  datatype ScanOutcome = ScanEnqueued(db: Db) | ScanCovered | ScanStale | ScanFailed(error: StoreError)

  predicate ValidObservation(o: Observation) {
    && o.path != "" && o.priority >= 0
    && (if o.op.Relocate? then o.oldPath.Some? && o.oldPath.value != "" && o.seen.Some? else o.oldPath.None?)
    && (o.seen.Some? ==> o.seen.value.fileId > 0 && o.seen.value.generation >= 1)
  }

  /** activeReconcileTask: unfinished work that already covers the difference. */
  predicate Covers(t: Task, path: Path, op: TaskOp, minimum: int) {
    && IsActive(t.state) && t.generation >= minimum
    && (t.path == path || (op.Remove? && t.op.Relocate? && t.oldPath == Some(path)))
  }

  ghost predicate Covered(tasks: map<nat, Task>, path: Path, op: TaskOp, minimum: int) {
    exists i :: i in tasks && Covers(tasks[i], path, op, minimum)
  }

  ghost function ScanRows(tasks: map<nat, Task>, path: Path): set<nat> {
    set i | i in tasks && (tasks[i].path == path || tasks[i].oldPath == Some(path))
  }

  ghost predicate ObservationHolds(db: Db, o: Observation) {
    var current := FileAt(db.files, CatalogPath(o.path, o.op, o.oldPath));
    && (o.op.Relocate? ==> FileAt(db.files, o.path).None?)
    && (match o.seen
        case None => current.None?
        case Some(seen) =>
          && current == Some(seen.fileId) && seen.fileId in db.files
          && db.files[seen.fileId].generation == seen.generation)
  }

  /** EnqueueReconcileIfCurrent. */
  ghost function Reconcile(db: Db, o: Observation): ScanOutcome {
    if !ValidObservation(o) then ScanFailed(Rejected)
    else if !ObservationHolds(db, o) then ScanStale
    else if Covered(db.tasks, o.path, o.op, if o.seen.Some? then o.seen.value.generation else 0) then ScanCovered
    else
      var request := ScanRequest(db, o);
      var outcome := Enqueue(if o.seen.Some? && o.seen.value.fileId in db.files then Bump(db, o.seen.value.fileId)
        else db, request);
      if outcome.Committed? then ScanEnqueued(outcome.db) else ScanFailed(outcome.error)
  }

  ghost function ScanRequest(db: Db, o: Observation): Request {
    if o.seen.Some? then
      Request(Some(o.seen.value.fileId), o.path, o.op, o.oldPath, o.seen.value.generation + 1, o.priority, 0)
    else
      Request(None, o.path, o.op, o.oldPath, MaxGeneration(db.tasks, ScanRows(db.tasks, o.path)) + 1, o.priority, 0)
  }

  // -------------------------------------------------------------------- claim

  datatype Source = AnySource | FreshSource | RetrySource

  predicate Claimable(tasks: map<nat, Task>, id: nat, now: int, source: Source) {
    && id in tasks && tasks[id].state.Pending? && tasks[id].dueAt <= now
    && (source.FreshSource? ==> tasks[id].attempts == 0 || tasks[id].charge == 0)
    && (source.RetrySource? ==> tasks[id].attempts > 0 && tasks[id].charge != 0)
    && !(exists j :: j in tasks && InSlot(tasks, j, tasks[id].path, InFlight))
  }

  function Claimed(t: Task): Task {
    t.(state := InFlight, attempts := t.attempts + t.charge)
  }

  ghost function Claim(db: Db, ids: set<nat>): Db {
    db.(tasks := map i | i in db.tasks :: if i in ids then Claimed(db.tasks[i]) else db.tasks[i])
  }

  // ------------------------------------------------------------------ prepare

  datatype Anchoring = Anchored(files: map<nat, File>, fileId: nat) | NotAnchored(error: StoreError)

  ghost function UpsertFile(files: map<nat, File>, file: File): Anchoring {
    if file.path == "" || file.generation < 1 then NotAnchored(Rejected)
    else match FileAt(files, file.path)
      case None => var f := NextRowId(files.Keys); Anchored(files[f := file], f)
      case Some(f) =>
        if f in files && file.generation >= files[f].generation then Anchored(files[f := file], f)
        else NotAnchored(StaleGeneration)
  }

  ghost function PrepareAnchored(files: map<nat, File>, f: nat, file: File): Anchoring {
    var owner := FileAt(files, file.path);
    if owner.Some? && owner.value != f then NotAnchored(PathOwnership)
    else if f !in files then NotAnchored(NotFound)
    else if files[f].generation != file.generation then NotAnchored(StaleGeneration)
    else Anchored(files[f := file], f)
  }

  /** PrepareFileForTask; every caller passes status pending. */
  ghost function Prepare(db: Db, id: nat, observed: File): Outcome {
    var file := observed.(status := PendingFile);
    var error := TransitionError(db, id, InFlight);
    if error.Some? then RolledBack(error.value)
    else if id !in db.tasks then RolledBack(NotFound)
    else
      var t := db.tasks[id];
      if t.path != file.path || t.generation != file.generation then RolledBack(TaskMismatch)
      else
        var a := if t.fileId.Some? then PrepareAnchored(db.files, t.fileId.value, file) else UpsertFile(db.files, file);
        if a.NotAnchored? then RolledBack(a.error)
        else Committed(db.(files := a.files, tasks := db.tasks[id := t.(fileId := Some(a.fileId))]))
  }

  ghost function RelocateFile(db: Db, f: nat, generation: int, newPath: Path): Outcome {
    var owner := FileAt(db.files, newPath);
    if newPath == "" then RolledBack(Rejected)
    else if owner.Some? && owner.value != f then RolledBack(PathOwnership)
    else if f !in db.files then RolledBack(NotFound)
    else if db.files[f].generation != generation then RolledBack(StaleGeneration)
    else Committed(db.(files := db.files[f := db.files[f].(path := newPath)]))
  }

  // --------------------------------------------------------------- completion

  ghost function MarkDone(db: Db, id: nat, clearDeadLetter: bool): Outcome {
    var error := TransitionError(db, id, InFlight);
    if error.Some? then RolledBack(error.value)
    else if id !in db.tasks then RolledBack(NotFound)
    else
      var t := db.tasks[id];
      Committed(db.(
        tasks := Place(db.tasks, id, t.(state := Done)),
        dead := if clearDeadLetter && t.fileId.Some?
                then map f | f in db.dead
                  && !(f == t.fileId.value && db.dead[f].generation < t.generation) :: db.dead[f]
                else db.dead))
  }

  /** One line of a commit receipt (store.CommittedTask). */
  datatype Receipt = Receipt(taskId: nat, fileId: nat, generation: int, stale: bool, status: FileStatus,
    indexedAt: Option<int>)

  ghost function CompleteOne(db: Db, item: Receipt): Outcome {
    var error := TransitionError(db, item.taskId, InFlight);
    if !item.status.Indexed? && !item.status.Deleted? then RolledBack(Rejected)
    else if error.Some? then RolledBack(error.value)
    else if item.taskId !in db.tasks then RolledBack(NotFound)
    else if db.tasks[item.taskId].fileId != Some(item.fileId)
      || db.tasks[item.taskId].generation != item.generation then
      RolledBack(TaskMismatch)
    else if item.stale then MarkDone(db, item.taskId, false)
    else if item.fileId !in db.files || db.files[item.fileId].generation != item.generation
      then RolledBack(StaleGeneration)
    else
      MarkDone(
        db.(files := db.files[item.fileId := db.files[item.fileId].(status := item.status,
          indexedAt := item.indexedAt)]),
        item.taskId, true)
  }

  /** CompleteCommittedBatch: all receipts or none. */
  ghost function CompleteBatch(db: Db, items: seq<Receipt>): Outcome
    decreases |items|
  {
    if items == [] then Committed(db) else
    var first := CompleteOne(db, items[0]);
    if first.RolledBack? then first else CompleteBatch(first.db, items[1..])
  }

  /** RetireTaskIfSuperseded: done without touching dead letters, only under a newer generation. */
  ghost predicate Superseded(db: Db, id: nat)
    requires id in db.tasks
  {
    var t := db.tasks[id];
    || (t.fileId.Some? && t.fileId.value in db.files && db.files[t.fileId.value].generation > t.generation)
    || (exists j :: j in db.tasks && j != id && db.tasks[j].path == t.path && db.tasks[j].generation > t.generation)
  }

  ghost function Retire(db: Db, id: nat): Outcome {
    var error := TransitionError(db, id, InFlight);
    if error.Some? then RolledBack(error.value)
    else if id !in db.tasks then RolledBack(NotFound)
    else if !Superseded(db, id) then Committed(db)
    else Committed(db.(tasks := Place(db.tasks, id, db.tasks[id].(state := Done))))
  }

  // ----------------------------------------------------------- failed leases

  /** MarkRetry: the execution counts, and a free lease stops being free. */
  function Retried(t: Task, dueAt: int): Task {
    t.(state := RetryWait, attempts := t.attempts + (1 - t.charge), charge := 1, dueAt := dueAt,
      log := t.log + [TaskFailure])
  }

  /** MarkDispatchRetry: the claim is refunded and the charge stays as it was. */
  function Refunded(t: Task, dueAt: int): Task {
    t.(state := RetryWait, attempts := Max(t.attempts - t.charge, 0), dueAt := dueAt)
  }

  function Parked(t: Task): Task {
    t.(state := WaitingDep, attempts := Max(t.attempts - t.charge, 0), charge := 0)
  }

  /** MarkDead: the failing execution always counts. */
  function Died(t: Task): Task {
    t.(state := Dead, attempts := t.attempts + (1 - t.charge), charge := 1, log := t.log + [TaskFailure])
  }

  ghost function MarkRetry(db: Db, id: nat, dueAt: int, refund: bool): Outcome {
    var error := TransitionError(db, id, InFlight);
    if error.Some? then RolledBack(error.value)
    else if id !in db.tasks then RolledBack(NotFound)
    else if NewerOccupant(db.tasks, id, db.tasks[id], RetryWait) then RolledBack(StaleGeneration)
    else Committed(db.(tasks := Place(db.tasks, id, if refund then Refunded(db.tasks[id], dueAt)
      else Retried(db.tasks[id], dueAt))))
  }

  /** The waiting_dep rows that parking `ids` overwrites. */
  ghost predicate ClearedByParking(tasks: map<nat, Task>, ids: seq<nat>, j: nat) {
    && j in tasks && tasks[j].state.WaitingDep?
    && exists i :: i in ids && i in tasks && i != j && tasks[i].path == tasks[j].path
  }

  ghost function ParkedRows(tasks: map<nat, Task>, ids: seq<nat>): map<nat, Task> {
    map j | j in tasks && !ClearedByParking(tasks, ids, j) :: if j in ids then Parked(tasks[j]) else tasks[j]
  }

  ghost predicate CanPark(db: Db, ids: seq<nat>) {
    && ids != [] && NoDuplicates(ids) && 0 !in ids
    && (forall i :: i in ids ==> TransitionError(db, i, InFlight).None?)
    && (forall i :: i in ids && i in db.tasks ==> !NewerOccupant(db.tasks, i, db.tasks[i], WaitingDep))
  }

  ghost function ParkBatch(db: Db, ids: seq<nat>): Db {
    if CanPark(db, ids) then db.(tasks := ParkedRows(db.tasks, ids)) else db
  }

  // ------------------------------------------------------------------- deaths

  /** ensureFailureFileTx: give a pre-catalog task a failed placeholder row. */
  ghost function FailureFile(files: map<nat, File>, t: Task): Anchoring {
    match FileAt(files, t.path)
    case None =>
      var f := NextRowId(files.Keys);
      Anchored(files[f := File(t.path, OtherKind, t.generation, Failed, None, None, 0)], f)
    case Some(f) =>
      if f !in files then NotAnchored(NotFound)
      else if t.generation >= files[f].generation
        then Anchored(files[f := files[f].(generation := t.generation, status := Failed)], f)
      else Anchored(files, f)
  }

  function FailIfCurrent(files: map<nat, File>, f: nat, generation: int): map<nat, File> {
    if f in files && files[f].generation == generation then files[f := files[f].(status := Failed)] else files
  }

  /** upsertDeadLetterTx: an older failure never replaces a newer one. */
  function UpsertDeadLetter(dead: map<nat, DeadLetter>, f: nat, letter: DeadLetter): map<nat, DeadLetter> {
    if f in dead && dead[f].generation > letter.generation then dead else dead[f := letter]
  }

  /** The dead letter and catalog side of a dead task anchored to row f. */
  ghost function Bury(db: Db, id: nat, f: nat): Db
    requires id in db.tasks
  {
    var t := db.tasks[id];
    Db(FailIfCurrent(db.files, f, t.generation),
       db.tasks[id := t.(fileId := Some(f))],
       UpsertDeadLetter(db.dead, f, DeadLetter(t.path, t.generation)))
  }

  ghost function DeathAnchoring(files: map<nat, File>, t: Task): Anchoring {
    if t.fileId.Some? then Anchored(files, t.fileId.value) else FailureFile(files, t)
  }

  ghost function RecordDeath(db: Db, id: nat): Db
    requires id in db.tasks
  {
    var a := DeathAnchoring(db.files, db.tasks[id]);
    if a.NotAnchored? then db else Bury(db.(files := a.files), id, a.fileId)
  }

  ghost function MarkDead(db: Db, id: nat): Outcome {
    var error := TransitionError(db, id, InFlight);
    if error.Some? then RolledBack(error.value)
    else if id !in db.tasks then RolledBack(NotFound)
    else if NewerOccupant(db.tasks, id, db.tasks[id], Dead) then RolledBack(StaleGeneration)
    else Committed(RecordDeath(db.(tasks := Place(db.tasks, id, Died(db.tasks[id]))), id))
  }

  /** Task.FailureAttempts. */
  function FailureAttempts(t: Task): int {
    if t.charge == 0 then t.attempts + 1 else t.attempts
  }

  /** Policy.ShouldRetry with the given limit on transient attempts. */
  predicate ShouldRetry(transient: bool, attempts: int, limit: nat) {
    transient && 0 <= attempts < limit
  }

  /** How handleLease ends a lease whose processing failed. */
  ghost function HandleFailure(db: Db, id: nat, transient: bool, dueAt: int, limit: nat): Outcome {
    var error := TransitionError(db, id, InFlight);
    if error.Some? then RolledBack(error.value)
    else if id in db.tasks && ShouldRetry(transient, FailureAttempts(db.tasks[id]), limit)
      then MarkRetry(db, id, dueAt, false)
    else MarkDead(db, id)
  }

  // ------------------------------------------------- release and crash recovery

  /** The pending row that absorbs a released row of a newer generation. */
  function Absorb(pending: Task, t: Task): Task {
    pending.(fileId := t.fileId, op := t.op, oldPath := t.oldPath, generation := t.generation,
             priority := Min(pending.priority, t.priority), attempts := t.attempts, crashCount := t.crashCount,
             charge := t.charge, dueAt := 0, log := t.log)
  }

  ghost function ReleaseOne(db: Db, id: nat): Db
    requires id in db.tasks
  {
    var t := db.tasks[id];
    match Slot(db.tasks, t.path, Pending)
    case None => db.(tasks := db.tasks[id := t.(state := Pending, dueAt := 0)])
    case Some(p) =>
      if p !in db.tasks then db else
      var others := db.tasks - {id};
      if t.generation > db.tasks[p].generation
      then db.(tasks := others[p := Absorb(db.tasks[p], t)])
      else db.(tasks := others)
  }

  ghost function ReleaseAll(db: Db, ids: seq<nat>): Db
    decreases |ids|
  {
    if ids == [] then db
    else if ids[0] !in db.tasks then db
    else ReleaseAll(ReleaseOne(db, ids[0]), ids[1..])
  }

  datatype Recovery = Recovery(db: Db, requeued: nat, poisoned: nat, superseded: nat)

  function CrashTarget(t: Task): TaskState {
    if t.crashCount + 1 >= 2 then Dead else Pending
  }

  function Crashed(t: Task): Task {
    t.(crashCount := t.crashCount + 1, state := CrashTarget(t), dueAt := 0, log := t.log + [ProcessCrash(t.charge)])
  }

  ghost function RecoverOne(r: Recovery, id: nat): Recovery
    requires id in r.db.tasks
  {
    var t := r.db.tasks[id];
    if NewerOccupant(r.db.tasks, id, t, CrashTarget(t)) then
      r.(db := r.db.(tasks := r.db.tasks - {id}), superseded := r.superseded + 1)
    else
      var moved := r.db.(tasks := Place(r.db.tasks, id, Crashed(t)));
      if CrashTarget(t).Dead? then r.(db := RecordDeath(moved, id), poisoned := r.poisoned + 1)
      else r.(db := moved, requeued := r.requeued + 1)
  }

  /** recoverInFlightTx over the given rows. */
  ghost function RecoverAll(r: Recovery, ids: seq<nat>): Recovery
    decreases |ids|
  {
    if ids == [] then r
    else if ids[0] !in r.db.tasks then r
    else RecoverAll(RecoverOne(r, ids[0]), ids[1..])
  }

  // ------------------------------------------------------ work from the catalog

  /** One child of an expanded directory: bump its row by id and queue its next generation. */
  datatype Child = Child(fileId: nat, destination: Option<Path>)

  ghost function ChildRequest(db: Db, child: Child, priority: int): Request
    requires child.fileId in db.files
  {
    var file := db.files[child.fileId];
    match child.destination
    case None => Request(Some(child.fileId), file.path, Remove, None, file.generation + 1, priority, 0)
    case Some(path) => Request(Some(child.fileId), path, Relocate, Some(file.path), file.generation + 1, priority, 0)
  }

  ghost function ExpandOne(db: Db, child: Child, priority: int): Outcome {
    if child.fileId !in db.files then RolledBack(NotFound)
    else Enqueue(Bump(db, child.fileId), ChildRequest(db, child, priority))
  }

  ghost function ExpandAll(db: Db, children: seq<Child>, priority: int): Outcome
    decreases |children|
  {
    if children == [] then Committed(db) else
    var first := ExpandOne(db, children[0], priority);
    if first.RolledBack? then first else ExpandAll(first.db, children[1..], priority)
  }

  /** listDirectoryChildrenTx: every catalog row strictly below the source, and where it goes. */
  ghost predicate Lists(files: map<nat, File>, source: Path, destination: Option<Path>, children: seq<Child>) {
    && (forall i, j :: 0 <= i < j < |children| ==> children[i].fileId != children[j].fileId)
    && (forall i :: 0 <= i < |children| ==> IsChild(files, source, destination, children[i]))
    && (forall f :: f in files && Inside(source, files[f].path) ==>
      exists i :: 0 <= i < |children| && children[i].fileId == f)
  }

  predicate IsChild(files: map<nat, File>, source: Path, destination: Option<Path>, child: Child) {
    && child.fileId in files && Inside(source, files[child.fileId].path)
    && child.destination ==
       if destination.Some? then Some(Rebased(source, destination.value, files[child.fileId].path)) else None
  }

  /** A claimed row that stands for a whole directory. */
  predicate IsDirectoryTask(t: Task) {
    && t.fileId.None? && !t.op.Upsert? && ValidDirectory(t.path)
    && (t.op.Relocate? ==> t.oldPath.Some? && ValidDirectory(t.oldPath.value))
  }

  function DirectorySource(t: Task): Path {
    CatalogPath(t.path, t.op, t.oldPath)
  }

  function DirectoryDestination(t: Task): Option<Path> {
    if t.op.Relocate? then Some(t.path) else None
  }

  /** ExpandDirectoryTask over the children its listing returned. */
  ghost function ExpandDirectory(db: Db, id: nat, children: seq<Child>): Outcome {
    var error := TransitionError(db, id, InFlight);
    if error.Some? then RolledBack(error.value)
    else if id !in db.tasks then RolledBack(NotFound)
    else if !IsDirectoryTask(db.tasks[id]) then RolledBack(Rejected)
    else
      var expanded := ExpandAll(db, children, db.tasks[id].priority);
      if expanded.RolledBack? then expanded else MarkDone(expanded.db, id, true)
  }

  /** One dead letter of a redrive; a superseded one is left alone. */
  ghost function RedriveOne(db: Db, f: nat, priority: int): Outcome {
    if f !in db.dead || f !in db.files then RolledBack(NotFound)
    else if db.files[f].generation > db.dead[f].generation then Committed(db)
    else
      var queued := Enqueue(db, Request(Some(f), db.dead[f].path, Upsert, None, db.files[f].generation, priority, 0));
      if queued.RolledBack? then queued
      else Committed(queued.db.(dead := db.dead - {f}, files := db.files[f := db.files[f].(status := PendingFile)]))
  }

  ghost function RedriveAll(db: Db, ids: seq<nat>, priority: int): Outcome
    decreases |ids|
  {
    if ids == [] then Committed(db) else
    var first := RedriveOne(db, ids[0], priority);
    if first.RolledBack? then first else RedriveAll(first.db, ids[1..], priority)
  }

  predicate UpgradeCandidate(file: File, model: string) {
    file.kind.ImageKind? && Visible(file) && file.model != Some(model)
  }

  /** One file of a model upgrade: the row stays indexed but loses indexed_at. */
  function UpgradedFile(file: File): File {
    file.(generation := file.generation + 1, indexedAt := None)
  }

  function UpgradeRequest(file: File, f: nat, priority: int): Request {
    Request(Some(f), file.path, Upsert, None, file.generation + 1, priority, 0)
  }

  ghost function UpgradeOne(db: Db, f: nat, model: string, priority: int): Outcome {
    if f !in db.files || !UpgradeCandidate(db.files[f], model) then Committed(db)
    else Enqueue(db.(files := db.files[f := UpgradedFile(db.files[f])]), UpgradeRequest(db.files[f], f, priority))
  }

  ghost function UpgradeAll(db: Db, ids: seq<nat>, model: string, priority: int): Outcome
    decreases |ids|
  {
    if ids == [] then Committed(db) else
    var first := UpgradeOne(db, ids[0], model, priority);
    if first.RolledBack? then first else UpgradeAll(first.db, ids[1..], model, priority)
  }

  /** EnqueueMediaBackfill: a conditional bump and its task in one transaction. */
  ghost function Backfill(db: Db, f: nat, generation: int, priority: int): Outcome {
    if f !in db.files || db.files[f].generation != generation || !db.files[f].kind.OtherKind? || !Visible(db.files[f])
    then Committed(db) else
    var file := db.files[f].(generation := generation + 1, status := PendingFile, indexedAt := None);
    Enqueue(db.(files := db.files[f := file]), Request(Some(f), file.path, Upsert, None, generation + 1, priority, 0))
  }

  // ------------------------------------------------------------- single-row writes

  /** The catalog side of a vector write: the row's model, fenced by its generation. */
  ghost function SetModel(db: Db, f: nat, generation: int, model: Option<string>): Outcome {
    if f !in db.files then RolledBack(NotFound)
    else if db.files[f].generation != generation then RolledBack(StaleGeneration)
    else Committed(db.(files := db.files[f := db.files[f].(model := model)]))
  }

  /** DeleteDeadLetterIfUnchanged: retention removes only the letter it has archived. */
  ghost function DropLetter(db: Db, f: nat, generation: int): Db {
    if f in db.dead && db.dead[f].generation == generation then db.(dead := db.dead - {f}) else db
  }
}
