/** The store itself: each method is one write transaction over its tables. */
module Store {
  import opened Basics
  import opened Catalog
  import opened Queue
  import opened QueueInvariant
  import opened QueueLeases
  import opened QueueRecovery
  import opened QueueProducers
  import opened QueueLanding
  import opened QueueFence
  import opened QueueRemoval
  import opened QueueRuns
  import opened Paths

  datatype Order = ByPriority | ById

  /** ORDER BY priority, task_id; crash recovery orders by task_id alone. */
  predicate Before(tasks: map<nat, Task>, i: nat, j: nat, order: Order)
    requires i in tasks && j in tasks
  {
    if order.ByPriority? && tasks[i].priority != tasks[j].priority then tasks[i].priority < tasks[j].priority else i < j
  }

  /** The first n eligible rows in the given order. */
  ghost predicate FirstInOrder(tasks: map<nat, Task>, eligible: set<nat>, n: int, order: Order, ids: seq<nat>)
    requires eligible <= tasks.Keys
  {
    && NoDuplicates(ids) && (forall i :: i in ids ==> i in eligible)
    && |ids| == (if n <= 0 then 0 else Min(n, |eligible|))
    && (forall a, b :: 0 <= a < b < |ids| ==> Before(tasks, ids[a], ids[b], order))
    && (forall i, j :: i in ids && j in eligible && j !in ids ==> Before(tasks, i, j, order))
  }

  class Store {
    var files: map<nat, File>
    var tasks: map<nat, Task>
    var dead: map<nat, DeadLetter>
    const retryLimit: nat

    ghost function View(): Db
      reads this
    {
      Db(files, tasks, dead)
    }

    ghost predicate Valid()
      reads this
    {
      Inv(View(), retryLimit)
    }

    constructor (retryLimit: nat)
      ensures Valid() && View() == EMPTY && this.retryLimit == retryLimit
    {
      files, tasks, dead := map[], map[], map[];
      this.retryLimit := retryLimit;
    }

    // ---------------------------------------------------------------- queries

    method FindSlot(path: Path, state: TaskState) returns (slot: Option<nat>)
      requires UniqueSlots(tasks)
      ensures slot == Slot(tasks, path, state)
    {
      if exists id :: id in tasks && tasks[id].path == path && tasks[id].state == state {
        var id :| id in tasks && tasks[id].path == path && tasks[id].state == state;
        SlotIs(tasks, id);
        return Some(id);
      }
      assert forall id :: !InSlot(tasks, id, path, state);
      return None;
    }

    method FindFile(path: Path) returns (found: Option<nat>)
      requires UniquePaths(files)
      ensures found == FileAt(files, path)
    {
      if exists id :: id in files && files[id].path == path {
        var id :| id in files && files[id].path == path;
        FileAtIs(files, id);
        return Some(id);
      }
      return None;
    }

    static method NextId(keys: set<nat>) returns (id: nat)
      ensures id == NextRowId(keys)
    {
      if keys == {} {
        return 1;
      }
      var top: nat :| top in keys;
      var rest := keys - {top};
      while rest != {}
        invariant rest <= keys && top in keys && top !in rest
        invariant forall k :: k in keys && k !in rest ==> k <= top
      {
        var k :| k in rest;
        top := if k > top then k else top;
        rest := rest - {k};
      }
      return top + 1;
    }

    method HighestGeneration(ids: set<nat>) returns (g: int)
      requires ids <= tasks.Keys
      ensures g == MaxGeneration(tasks, ids)
    {
      g := 0;
      var rest := ids;
      while rest != {}
        invariant rest <= ids && g >= 0
        invariant forall k :: k in ids && k !in rest ==> tasks[k].generation <= g
        invariant g == 0 || exists k :: k in ids && tasks[k].generation == g
      {
        var k :| k in rest;
        g := Max(g, tasks[k].generation);
        rest := rest - {k};
      }
    }

    /** SELECT ... ORDER BY ... LIMIT n. */
    method SelectFirst(eligible: set<nat>, n: int, order: Order) returns (ids: seq<nat>)
      requires eligible <= tasks.Keys
      ensures FirstInOrder(tasks, eligible, n, order, ids)
    {
      ids := [];
      var rest := eligible;
      while rest != {} && |ids| < n
        invariant forall i :: i in eligible <==> i in ids || i in rest
        invariant forall i :: i in ids ==> i !in rest
        invariant |ids| + |rest| == |eligible| && NoDuplicates(ids)
        invariant n > 0 ==> |ids| <= n
        invariant n <= 0 ==> ids == []
        invariant forall a, b :: 0 <= a < b < |ids| ==> Before(tasks, ids[a], ids[b], order)
        invariant forall i, j :: i in ids && j in rest ==> Before(tasks, i, j, order)
        decreases rest
      {
        var first :| first in rest;
        var unseen := rest - {first};
        while unseen != {}
          invariant unseen <= rest && first in rest && first !in unseen
          invariant forall j :: j in rest && j !in unseen && j != first ==> Before(tasks, first, j, order)
        {
          var k :| k in unseen;
          if Before(tasks, k, first, order) {
            first := k;
          }
          unseen := unseen - {k};
        }
        ids := ids + [first];
        rest := rest - {first};
      }
    }

    // ---------------------------------------------------------------- enqueue

    method Enqueue(e: Request) returns (error: Option<StoreError>)
      requires Valid() && (e.fileId.Some? ==> e.fileId.value in files)
      modifies this`tasks
      ensures View() == After(old(View()), Queue.Enqueue(old(View()), e)) && Valid()
      ensures error == ErrorOf(Queue.Enqueue(old(View()), e))
    {
      EnqueueKeepsInv(View(), e, retryLimit);
      error := EnqueueTx(e);
    }

    /** The same inside another transaction. */
    method EnqueueTx(e: Request) returns (error: Option<StoreError>)
      requires UniqueSlots(tasks)
      modifies this`tasks
      ensures View() == After(old(View()), Queue.Enqueue(old(View()), e))
      ensures error == ErrorOf(Queue.Enqueue(old(View()), e))
    {
      if !ValidRequest(e) {
        return Some(Rejected);
      }
      var slot := FindSlot(e.path, Pending);
      if slot.None? {
        var id := NextId(tasks.Keys);
        tasks := tasks[id := NewRow(e)];
      } else {
        assert InSlot(tasks, slot.value, e.path, Pending);
        tasks := tasks[slot.value := Coalesce(tasks[slot.value], e)];
      }
      return None;
    }

    method BumpById(f: nat)
      requires f in files
      modifies this`files
      ensures View() == Bump(old(View()), f)
    {
      files := files[f := files[f].(generation := files[f].generation + 1, status := PendingFile)];
    }

    /** The next generation of a path that no catalog row stands for. */
    method NextUnanchored(paths: set<Path>, atLeast: int) returns (g: int)
      ensures g == Max(atLeast, MaxGeneration(tasks, RowsAt(tasks, paths)) + 1)
    {
      var rows := set i | i in tasks && tasks[i].path in paths;
      assert rows == RowsAt(tasks, paths);
      var maximum := HighestGeneration(rows);
      g := Max(atLeast, maximum + 1);
    }

    ghost predicate AllRooted()
      reads this
    {
      forall i :: i in tasks ==> Rooted(tasks[i], files)
    }

    /** The row pays for the task: its next generation. */
    method Pay(f: nat, request: Request) returns (paid: Request)
      requires f in files
      modifies this`files
      ensures View() == Bump(old(View()), f)
      ensures paid == request.(fileId := Some(f), generation := old(files)[f].generation + 1)
    {
      BumpById(f);
      paid := request.(fileId := Some(f), generation := files[f].generation);
    }

    /** The pending row's own file pays; a write goes on with the rename still pending there. */
    method PayPending(pending: Task, request: Request) returns (paid: Request)
      requires pending.fileId.Some? && Rooted(pending, files)
      modifies this`files
      ensures View() == Bump(old(View()), pending.fileId.value)
      ensures var anchored :=
          request.(fileId := pending.fileId, generation := old(files)[pending.fileId.value].generation + 1);
        paid == if pending.op.Relocate? && request.op.Upsert?
          then anchored.(op := Relocate, oldPath := pending.oldPath) else anchored
    {
      paid := Pay(pending.fileId.value, request);
      if pending.op.Relocate? && request.op.Upsert? {
        paid := paid.(op := Relocate, oldPath := pending.oldPath);
      }
    }

    /** The generation of an event's task, bumping the catalog row that pays for it. */
    method AllocateGeneration(e: Event) returns (request: Request)
      requires UniqueSlots(tasks) && UniquePaths(files) && AllRooted()
      modifies this`files
      ensures Allocate(old(View()), e) == Allocated(View(), request)
    {
      var found := FindFile(CatalogPath(e.path, e.op, e.oldPath));
      if found.Some? {
        request := Pay(found.value, PlainRequest(e));
      } else {
        request := AllocateUnlisted(e);
      }
    }

    /** With no catalog row at the event's path, the pending row's own file pays, or nobody does. */
    method AllocateUnlisted(e: Event) returns (request: Request)
      requires UniqueSlots(tasks) && AllRooted()
      modifies this`files
      ensures Queue.AllocateUnlisted(old(View()), e) == Allocated(View(), request)
    {
      request := PlainRequest(e);
      var slot := FindSlot(e.path, Pending);
      assert slot.Some? ==> InSlot(tasks, slot.value, e.path, Pending);
      if slot.Some? && tasks[slot.value].fileId.Some? {
        request := PayPending(tasks[slot.value], request);
      } else {
        var g := NextUnanchored(EventPaths(e), e.generation);
        request := request.(generation := g);
      }
    }

    /** EnqueueAndBumpGeneration. */
    method EnqueueEvent(e: Event) returns (error: Option<StoreError>)
      requires Valid()
      modifies this`files, this`tasks
      ensures View() == After(old(View()), Queue.EnqueueEvent(old(View()), e)) && Valid()
      ensures error == ErrorOf(Queue.EnqueueEvent(old(View()), e))
    {
      EventStaysValid(View(), e, retryLimit);
      var saved := files;
      var request := AllocateGeneration(e);
      error := EnqueueTx(request);
      if error.Some? {
        files := saved;
      }
    }

    /** What a scanner transaction finds before it writes anything. */
    method Inspect(o: Observation) returns (verdict: ScanResult)
      requires UniquePaths(files)
      ensures verdict == InspectionOf(View(), o)
    {
      if !ValidObservation(o) {
        return Failure(Rejected);
      }
      var destination := FindFile(o.path);
      var current := FindFile(CatalogPath(o.path, o.op, o.oldPath));
      var holds := match o.seen
        case None => current.None?
        case Some(seen) =>
          current == Some(seen.fileId) && seen.fileId in files && files[seen.fileId].generation == seen.generation;
      if (o.op.Relocate? && destination.Some?) || !holds {
        return Stale;
      }
      var minimum := if o.seen.Some? then o.seen.value.generation else 0;
      if exists i :: i in tasks && Covers(tasks[i], o.path, o.op, minimum) {
        return AlreadyCovered;
      }
      return Queued;
    }

    method AllocateDifference(o: Observation) returns (request: Request)
      requires ObservationHolds(View(), o)
      modifies this`files
      ensures request == ScanRequest(old(View()), o)
      ensures View() == if o.seen.Some? then Bump(old(View()), o.seen.value.fileId) else old(View())
    {
      request := Request(None, o.path, o.op, o.oldPath, 0, o.priority, 0);
      if o.seen.Some? {
        BumpById(o.seen.value.fileId);
        request := request.(fileId := Some(o.seen.value.fileId), generation := files[o.seen.value.fileId].generation);
      } else {
        var rows := set i | i in tasks && (tasks[i].path == o.path || tasks[i].oldPath == Some(o.path));
        assert rows == ScanRows(tasks, o.path);
        var maximum := HighestGeneration(rows);
        request := request.(generation := maximum + 1);
      }
    }

    /** EnqueueReconcileIfCurrent. */
    method EnqueueReconcile(o: Observation) returns (outcome: ScanResult)
      requires Valid()
      modifies this`files, this`tasks
      ensures Valid() && outcome == ResultOf(Queue.Reconcile(old(View()), o))
      ensures View() == if outcome.Queued? then Queue.Reconcile(old(View()), o).db else old(View())
    {
      ReconcileStaysValid(View(), o, retryLimit);
      outcome := Inspect(o);
      if outcome.Queued? {
        var request := AllocateDifference(o);
        var error := EnqueueTx(request);
        assert error.None?;
      }
    }

    // ----------------------------------------------------------------- leases

    /** claim: one UPDATE over the first n claimable rows in queue order. */
    method Claim(n: int, now: int, source: Source) returns (claimed: seq<nat>)
      modifies this`tasks
      ensures FirstInOrder(old(tasks), ClaimableRows(old(tasks), now, source), n, ByPriority, claimed)
      ensures View() == Queue.Claim(old(View()), (set i | i in claimed))
      ensures old(Valid()) ==> Valid()
    {
      var eligible := set i | i in tasks && Claimable(tasks, i, now, source);
      claimed := SelectFirst(eligible, n, ByPriority);
      ClaimStaysValid(View(), (set i | i in claimed), now, source, retryLimit);
      MarkClaimed(claimed);
    }

    method MarkClaimed(claimed: seq<nat>)
      modifies this`tasks
      ensures View() == Queue.Claim(old(View()), (set i | i in claimed))
    {
      tasks := map i | i in tasks :: if i in claimed then Claimed(tasks[i]) else tasks[i];
    }

    /** taskForTransition. */
    method Lookup(id: nat, expected: TaskState) returns (error: Option<StoreError>)
      ensures error == TransitionError(View(), id, expected)
    {
      if id !in tasks {
        return Some(NotFound);
      }
      return if tasks[id].state != expected then Some(InvalidTransition) else None;
    }

    method ClearOlderStateSlot(id: nat, state: TaskState) returns (cleared: bool)
      requires UniqueSlots(tasks) && id in tasks
      modifies this`tasks
      ensures cleared <==> !NewerOccupant(old(tasks), id, old(tasks)[id], state)
      ensures cleared ==> tasks == WithoutOthers(old(tasks), id, state)
      ensures !cleared ==> tasks == old(tasks)
    {
      if exists j :: j in tasks && j != id && tasks[j].path == tasks[id].path && tasks[j].state == state {
        var other :| other in tasks && other != id && tasks[other].path == tasks[id].path
          && tasks[other].state == state;
        if tasks[other].generation > tasks[id].generation {
          return false;
        }
        tasks := tasks - {other};
      }
      return true;
    }

    /** Every finished row of the path gives way, whatever its generation. */
    method ClearDoneSlot(id: nat)
      requires id in tasks
      modifies this`tasks
      ensures tasks == WithoutOthers(old(tasks), id, Done)
    {
      tasks := map j | j in tasks && (j == id || tasks[j].path != tasks[id].path || tasks[j].state != Done) :: tasks[j];
    }

    method Move(id: nat, row: Task, ghost before: map<nat, Task>)
      requires id in before && tasks == WithoutOthers(before, id, row.state) && row.path == before[id].path
      modifies this`tasks
      ensures tasks == Place(before, id, row)
    {
      tasks := tasks[id := row];
    }

    /** PrepareFileForTask. */
    method Prepare(id: nat, observed: File) returns (error: Option<StoreError>)
      requires Valid()
      modifies this`files, this`tasks
      ensures View() == After(old(View()), Queue.Prepare(old(View()), id, observed)) && Valid()
      ensures error == ErrorOf(Queue.Prepare(old(View()), id, observed))
    {
      PrepareKeeps(View(), id, observed, retryLimit);
      var file := observed.(status := PendingFile);
      error := Lookup(id, InFlight);
      if error.Some? {
        return;
      }
      var t := tasks[id];
      if t.path != file.path || t.generation != file.generation {
        return Some(TaskMismatch);
      }
      var f: nat;
      error, f := WriteFile(t.fileId, file);
      if error.None? {
        tasks := tasks[id := t.(fileId := Some(f))];
      }
    }

    /** UpsertFileTx without an anchor, prepareAnchoredFileTx with one. */
    method WriteFile(anchor: Option<nat>, file: File) returns (error: Option<StoreError>, f: nat)
      requires UniquePaths(files)
      modifies this`files
      ensures var a := if anchor.Some? then PrepareAnchored(old(files), anchor.value, file)
        else UpsertFile(old(files), file);
        && error == (if a.Anchored? then None else Some(a.error))
        && (a.Anchored? ==> files == a.files && f == a.fileId)
        && (a.NotAnchored? ==> files == old(files))
    {
      f := 0;
      var owner := FindFile(file.path);
      if anchor.Some? {
        f := anchor.value;
        if owner.Some? && owner.value != f {
          return Some(PathOwnership), f;
        }
        if f !in files {
          return Some(NotFound), f;
        }
        if files[f].generation != file.generation {
          return Some(StaleGeneration), f;
        }
      } else {
        if file.path == "" || file.generation < 1 {
          return Some(Rejected), f;
        }
        if owner.Some? {
          f := owner.value;
          if file.generation < files[f].generation {
            return Some(StaleGeneration), f;
          }
        } else {
          f := NextId(files.Keys);
        }
      }
      files := files[f := file];
      return None, f;
    }

    method RelocateFile(f: nat, generation: int, newPath: Path) returns (error: Option<StoreError>)
      requires Valid()
      modifies this`files
      ensures View() == After(old(View()), Queue.RelocateFile(old(View()), f, generation, newPath)) && Valid()
      ensures error == ErrorOf(Queue.RelocateFile(old(View()), f, generation, newPath))
    {
      RelocateKeeps(View(), f, generation, newPath, retryLimit);
      var owner := FindFile(newPath);
      if newPath == "" {
        return Some(Rejected);
      }
      if owner.Some? && owner.value != f {
        return Some(PathOwnership);
      }
      if f !in files {
        return Some(NotFound);
      }
      if files[f].generation != generation {
        return Some(StaleGeneration);
      }
      files := files[f := files[f].(path := newPath)];
      return None;
    }

    // -------------------------------------------------------------- completion

    method MarkDone(id: nat, clearDeadLetter: bool) returns (error: Option<StoreError>)
      modifies this`tasks, this`dead
      ensures View() == After(old(View()), Queue.MarkDone(old(View()), id, clearDeadLetter))
      ensures error == ErrorOf(Queue.MarkDone(old(View()), id, clearDeadLetter))
      ensures old(Valid()) ==> Valid()
    {
      if Valid() {
        MarkDoneKeeps(View(), id, clearDeadLetter, retryLimit);
      }
      error := Lookup(id, InFlight);
      if error.Some? {
        return;
      }
      var t := tasks[id];
      ClearDoneSlot(id);
      Move(id, t.(state := Done), old(tasks));
      if clearDeadLetter && t.fileId.Some? {
        dead := map f | f in dead && !(f == t.fileId.value && dead[f].generation < t.generation) :: dead[f];
      }
    }

    method CompleteReceipt(item: Receipt) returns (error: Option<StoreError>)
      modifies this
      ensures View() == After(old(View()), CompleteOne(old(View()), item))
      ensures error == ErrorOf(CompleteOne(old(View()), item))
      ensures old(Valid()) ==> Valid()
    {
      if Valid() {
        CompleteOneKeeps(View(), item, retryLimit);
      }
      if !item.status.Indexed? && !item.status.Deleted? {
        return Some(Rejected);
      }
      error := Lookup(item.taskId, InFlight);
      if error.Some? {
        return;
      }
      if tasks[item.taskId].fileId != Some(item.fileId) || tasks[item.taskId].generation != item.generation {
        return Some(TaskMismatch);
      }
      if !item.stale {
        if item.fileId !in files || files[item.fileId].generation != item.generation {
          return Some(StaleGeneration);
        }
        files := files[item.fileId := files[item.fileId].(status := item.status, indexedAt := item.indexedAt)];
      }
      error := MarkDone(item.taskId, !item.stale);
    }

    /** CompleteCommittedBatch: one transaction, so a failing receipt undoes the ones before it. */
    method CompleteBatch(items: seq<Receipt>) returns (error: Option<StoreError>)
      requires Valid()
      modifies this
      ensures View() == After(old(View()), Queue.CompleteBatch(old(View()), items)) && Valid()
      ensures error == ErrorOf(Queue.CompleteBatch(old(View()), items))
    {
      CompleteBatchKeeps(View(), items, retryLimit);
      var savedFiles, savedTasks, savedDead := files, tasks, dead;
      var k := 0;
      while k < |items|
        invariant k <= |items|
        invariant Queue.CompleteBatch(old(View()), items) == Queue.CompleteBatch(View(), items[k..])
      {
        error := CompleteReceipt(items[k]);
        if error.Some? {
          files, tasks, dead := savedFiles, savedTasks, savedDead;
          return;
        }
        assert items[k..][1..] == items[k + 1..];
        k := k + 1;
      }
      return None;
    }

    /** Whether a strictly newer durable generation of the task's work exists. */
    method FindSuccessor(id: nat) returns (found: bool)
      requires id in tasks && tasks[id].generation >= 0
      ensures found == Superseded(View(), id)
    {
      var t := tasks[id];
      var maximum := if t.fileId.Some? && t.fileId.value in files then files[t.fileId.value].generation else 0;
      var rest := set j | j in tasks && j != id && tasks[j].path == t.path;
      var newest := HighestGeneration(rest);
      found := Max(maximum, newest) > t.generation;
      assert forall j :: j in tasks && j != id && tasks[j].path == t.path && tasks[j].generation > t.generation ==>
        j in rest;
    }

    /** RetireTaskIfSuperseded. */
    method Retire(id: nat) returns (error: Option<StoreError>, retired: bool)
      requires Valid()
      modifies this`tasks
      ensures View() == After(old(View()), Queue.Retire(old(View()), id)) && Valid()
      ensures error == ErrorOf(Queue.Retire(old(View()), id))
      ensures retired <==> error.None? && Superseded(old(View()), id)
    {
      RetireKeeps(View(), id, retryLimit);
      retired := false;
      error := Lookup(id, InFlight);
      if error.None? {
        assert RowOk(tasks[id], retryLimit);
        retired := FindSuccessor(id);
        if retired {
          ClearDoneSlot(id);
          Move(id, tasks[id].(state := Done), old(tasks));
        }
      }
    }

    // ------------------------------------------------------------ failed leases

    /** Its one caller asks the retry policy before it charges a failure. */
    ghost predicate MayRetry(id: nat, refund: bool)
      reads this
    {
      refund || id !in tasks || !tasks[id].state.InFlight? || ShouldRetry(true, FailureAttempts(tasks[id]), retryLimit)
    }

    /** MarkRetry and MarkDispatchRetry. */
    method MarkRetry(id: nat, dueAt: int, refund: bool) returns (error: Option<StoreError>)
      requires Valid() && MayRetry(id, refund)
      modifies this`tasks
      ensures View() == After(old(View()), Queue.MarkRetry(old(View()), id, dueAt, refund)) && Valid()
      ensures error == ErrorOf(Queue.MarkRetry(old(View()), id, dueAt, refund))
    {
      RetryStaysValid(View(), id, dueAt, refund, retryLimit);
      error := MarkRetryTx(id, dueAt, refund);
    }

    /** markRetry: a real failure, or the refund of a claim that was never dispatched. */
    method MarkRetryTx(id: nat, dueAt: int, refund: bool) returns (error: Option<StoreError>)
      requires UniqueSlots(tasks)
      modifies this`tasks
      ensures View() == After(old(View()), Queue.MarkRetry(old(View()), id, dueAt, refund))
      ensures error == ErrorOf(Queue.MarkRetry(old(View()), id, dueAt, refund))
    {
      error := Lookup(id, InFlight);
      if error.Some? {
        return;
      }
      var cleared := ClearOlderStateSlot(id, RetryWait);
      if !cleared {
        return Some(StaleGeneration);
      }
      var t := tasks[id];
      var attempts, charge, log := t.attempts + (1 - t.charge), 1, t.log + [TaskFailure];
      if refund {
        attempts, charge, log := Max(t.attempts - t.charge, 0), t.charge, t.log;
      }
      Move(id, t.(state := RetryWait, attempts := attempts, charge := charge, dueAt := dueAt, log := log), old(tasks));
    }

    method ValidateParking(ids: seq<nat>) returns (valid: bool)
      ensures valid <==> Parkable(View(), ids)
    {
      if ids == [] {
        return false;
      }
      var seen: set<nat> := {};
      for k := 0 to |ids|
        invariant seen == (set i | i in ids[..k]) && 0 !in seen && NoDuplicates(ids[..k])
      {
        if ids[k] == 0 || ids[k] in seen {
          return false;
        }
        seen := seen + {ids[k]};
      }
      assert ids[..|ids|] == ids;
      for k := 0 to |ids|
        invariant forall i :: i in ids[..k] ==> TransitionError(View(), i, InFlight).None?
      {
        var error := Lookup(ids[k], InFlight);
        if error.Some? {
          return false;
        }
      }
      return true;
    }

    method ClearParkingSlots(ids: seq<nat>) returns (cleared: bool)
      requires UniqueSlots(tasks) && Parkable(View(), ids)
      modifies this`tasks
      ensures cleared <==> CanPark(old(View()), ids)
      ensures cleared ==> tasks == Unparked(old(tasks), ids)
    {
      var saved := tasks;
      assert Unparked(saved, ids[..0]) == saved;
      for k := 0 to |ids|
        invariant tasks == Unparked(saved, ids[..k])
        invariant forall i :: i in ids[..k] ==> i in saved && !NewerOccupant(saved, i, saved[i], WaitingDep)
      {
        ClearingNext(saved, ids, k);
        cleared := ClearOlderStateSlot(ids[k], WaitingDep);
        if !cleared {
          return;
        }
      }
      assert ids[..|ids|] == ids;
      return true;
    }

    method ParkRows(ids: seq<nat>)
      requires NoDuplicates(ids) && forall i :: i in ids ==> i in tasks
      modifies this`tasks
      ensures tasks == map j | j in old(tasks) :: if j in ids then Parked(old(tasks)[j]) else old(tasks)[j]
    {
      for k := 0 to |ids|
        invariant tasks == map j | j in old(tasks) :: if j in ids[..k] then Parked(old(tasks)[j]) else old(tasks)[j]
      {
        assert ids[k] !in ids[..k] && ids[..k + 1] == ids[..k] + [ids[k]];
        tasks := tasks[ids[k] := Parked(tasks[ids[k]])];
      }
      assert ids[..|ids|] == ids;
    }

    /** MarkWaitingDepBatch: validate every row, clear every slot, then park every row. */
    method ParkBatch(ids: seq<nat>) returns (parked: bool)
      requires UniqueSlots(tasks)
      modifies this`tasks
      ensures View() == Queue.ParkBatch(old(View()), ids)
      ensures parked <==> CanPark(old(View()), ids)
      ensures old(Valid()) ==> Valid()
    {
      if Valid() {
        ParkKeeps(View(), ids, retryLimit);
      }
      var saved := tasks;
      parked := ValidateParking(ids);
      if parked {
        parked := ClearParkingSlots(ids);
        if !parked {
          tasks := saved;
          return;
        }
        ParkingIs(saved, ids);
        ParkRows(ids);
      }
    }

    // ------------------------------------------------------------------- deaths

    /** ensureFailureFileTx. */
    method EnsureFailureFile(t: Task) returns (f: nat)
      requires UniquePaths(files)
      modifies this`files
      ensures FailureFile(old(files), t) == Anchoring.Anchored(files, f)
    {
      var found := FindFile(t.path);
      if found.None? {
        f := NextId(files.Keys);
        files := files[f := File(t.path, OtherKind, t.generation, Failed, None, None, 0)];
      } else {
        f := found.value;
        if t.generation >= files[f].generation {
          files := files[f := files[f].(generation := t.generation, status := Failed)];
        }
      }
    }

    /** The dead letter, the anchor and the failed catalog row of a dead task. */
    method Bury(id: nat)
      requires UniquePaths(files) && id in tasks
      modifies this
      ensures View() == RecordDeath(old(View()), id)
    {
      var t := tasks[id];
      var f: nat;
      if t.fileId.Some? {
        f := t.fileId.value;
      } else {
        f := EnsureFailureFile(t);
      }
      tasks := tasks[id := t.(fileId := Some(f))];
      if f !in dead || dead[f].generation <= t.generation {
        dead := dead[f := DeadLetter(t.path, t.generation)];
      }
      if f in files && files[f].generation == t.generation {
        files := files[f := files[f].(status := Failed)];
      }
    }

    method MarkDead(id: nat) returns (error: Option<StoreError>)
      requires Valid()
      modifies this
      ensures View() == After(old(View()), Queue.MarkDead(old(View()), id)) && Valid()
      ensures error == ErrorOf(Queue.MarkDead(old(View()), id))
    {
      DeathStaysValid(View(), id, retryLimit);
      error := MarkDeadTx(id);
    }

    method MarkDeadTx(id: nat) returns (error: Option<StoreError>)
      requires UniqueSlots(tasks) && UniquePaths(files)
      modifies this
      ensures View() == After(old(View()), Queue.MarkDead(old(View()), id))
      ensures error == ErrorOf(Queue.MarkDead(old(View()), id))
    {
      error := Lookup(id, InFlight);
      if error.Some? {
        return;
      }
      var cleared := ClearOlderStateSlot(id, Dead);
      if !cleared {
        return Some(StaleGeneration);
      }
      var t := tasks[id];
      Move(id, t.(state := Dead, attempts := t.attempts + (1 - t.charge), charge := 1, log := t.log + [TaskFailure]),
        old(tasks));
      assert View() == old(View()).(tasks := Place(old(tasks), id, Died(old(tasks)[id])));
      Bury(id);
    }

    /** How a worker ends a lease whose processing failed: retry within the budget, else die. */
    method HandleFailure(id: nat, transient: bool, dueAt: int) returns (error: Option<StoreError>)
      requires Valid()
      modifies this
      ensures View() == After(old(View()), Queue.HandleFailure(old(View()), id, transient, dueAt, retryLimit))
        && Valid()
      ensures error == ErrorOf(Queue.HandleFailure(old(View()), id, transient, dueAt, retryLimit))
    {
      HandleFailureKeeps(View(), id, transient, dueAt, retryLimit);
      error := Lookup(id, InFlight);
      if error.None? {
        if ShouldRetry(transient, FailureAttempts(tasks[id]), retryLimit) {
          error := MarkRetryTx(id, dueAt, false);
        } else {
          error := MarkDeadTx(id);
        }
      }
    }

    // ------------------------------------------------- release and crash recovery

    method Release(id: nat)
      requires UniqueSlots(tasks) && id in tasks && !tasks[id].state.Pending?
      modifies this`tasks
      ensures View() == ReleaseOne(old(View()), id)
    {
      var t := tasks[id];
      var slot := FindSlot(t.path, Pending);
      if slot.None? {
        tasks := tasks[id := t.(state := Pending, dueAt := 0)];
      } else {
        var p := slot.value;
        assert InSlot(tasks, p, t.path, Pending);
        if t.generation > tasks[p].generation {
          tasks := tasks[p := Absorb(tasks[p], t)];
        }
        tasks := tasks - {id};
      }
    }

    /** releaseToPending: the first `limit` parked (or due) rows, in queue order. */
    method ReleaseToPending(state: TaskState, now: int, limit: int) returns (released: seq<nat>)
      requires Valid() && (state.RetryWait? || state.WaitingDep?)
      modifies this`tasks
      ensures FirstInOrder(
        old(tasks), ReleasableRows(old(tasks), state, now), ReleaseBatch(limit), ByPriority, released)
      ensures View() == ReleaseAll(old(View()), released) && Valid()
      ensures forall i :: i in tasks && tasks[i].state == state ==> i in old(tasks) && i !in released
    {
      var eligible := set i | i in tasks && tasks[i].state == state && (state.RetryWait? ==> tasks[i].dueAt <= now);
      released := SelectFirst(eligible, ReleaseBatch(limit), ByPriority);
      ghost var before := View();
      ReleaseKeeps(before, released, state, retryLimit);
      ReleaseLeaves(before, released, state);
      var k := 0;
      while k < |released|
        invariant k <= |released|
        invariant UniqueSlots(tasks) && Candidates(tasks, released[k..], state)
        invariant ReleaseAll(before, released) == ReleaseAll(View(), released[k..])
      {
        ghost var mid := View();
        ReleaseOneShape(mid, released[k]);
        ReleaseOneUnique(mid, released[k]);
        Release(released[k]);
        assert released[k..][1..] == released[k + 1..];
        RestAreCandidates(mid.tasks, tasks, released[k..], state);
        k := k + 1;
      }
    }

    /** One in-flight row of a crashed process: requeued, poisoned, or dropped for a newer one. */
    method RecoverTask(id: nat, counts: Counts) returns (result: Counts)
      requires UniqueSlots(tasks) && UniquePaths(files) && id in tasks
      modifies this
      ensures RecoverOne(Result(old(View()), counts), id) == Result(View(), result)
    {
      RecoverOneIs(View(), counts, id);
      var t := tasks[id];
      var target := CrashTarget(t);
      var cleared := ClearOlderStateSlot(id, target);
      if !cleared {
        tasks := tasks - {id};
        return counts.(superseded := counts.superseded + 1);
      }
      Move(id, Crashed(t), old(tasks));
      assert View() == old(View()).(tasks := Place(old(tasks), id, Crashed(old(tasks)[id])));
      if target.Dead? {
        Bury(id);
        return counts.(poisoned := counts.poisoned + 1);
      }
      return counts.(requeued := counts.requeued + 1);
    }

    method RecoverRows(order: seq<nat>) returns (counts: Counts)
      requires Valid() && Candidates(tasks, order, InFlight)
      modifies this
      ensures Result(View(), counts) == RecoverAll(Result(old(View()), Counts(0, 0, 0)), order)
    {
      counts := Counts(0, 0, 0);
      var k := 0;
      while k < |order|
        invariant k <= |order|
        invariant Valid() && Candidates(tasks, order[k..], InFlight)
        invariant RecoverAll(Result(old(View()), Counts(0, 0, 0)), order) == RecoverAll(Result(View(), counts),
          order[k..])
      {
        RecoverStep(Result(View(), counts), order[k..], retryLimit);
        counts := RecoverTask(order[k], counts);
        assert order[k..][1..] == order[k + 1..];
        k := k + 1;
      }
    }

    /** recoverInFlightTx: afterwards nothing is in flight and every row is accounted for. */
    method RecoverInFlight() returns (counts: Counts, ghost ids: seq<nat>)
      requires Valid()
      modifies this
      ensures Candidates(old(tasks), ids, InFlight) && forall a, b :: 0 <= a < b < |ids| ==> ids[a] < ids[b]
      ensures Result(View(), counts) == RecoverAll(Result(old(View()), Counts(0, 0, 0)), ids)
      ensures Valid() && forall i :: i in tasks ==> !tasks[i].state.InFlight?
      ensures counts.requeued + counts.poisoned + counts.superseded == |ids|
    {
      var rows := set i | i in tasks && tasks[i].state.InFlight?;
      var order := SelectFirst(rows, |rows|, ById);
      DistinctAll(order, rows);
      ids := order;
      RecoverKeeps(Result(View(), Counts(0, 0, 0)), ids, retryLimit);
      RecoveryEmptiesFlight(View(), ids, retryLimit);
      counts := RecoverRows(order);
    }

    // ------------------------------------------------------ work from the catalog

    /** listDirectoryChildrenTx. */
    method ListChildren(source: Path, destination: Option<Path>) returns (children: seq<Child>)
      ensures Lists(files, source, destination, children)
    {
      children := [];
      var rest := files.Keys;
      while rest != {}
        invariant rest <= files.Keys
        invariant forall i, j :: 0 <= i < j < |children| ==> children[i].fileId != children[j].fileId
        invariant forall i :: 0 <= i < |children| ==>
          children[i].fileId !in rest && IsChild(files, source, destination, children[i])
        invariant forall f :: f in files && f !in rest && Inside(source, files[f].path) ==>
          exists i :: 0 <= i < |children| && children[i].fileId == f
      {
        var f :| f in rest;
        ghost var before := children;
        if Inside(source, files[f].path) {
          children := children + [Child(f, match destination
            case None => None
            case Some(directory) => Some(Rebased(source, directory, files[f].path)))];
          assert children[|before|].fileId == f;
        }
        assert forall i :: 0 <= i < |before| ==> children[i] == before[i];
        rest := rest - {f};
      }
    }

    /** ExpandDirectoryTask. */
    method ExpandDirectory(id: nat) returns (error: Option<StoreError>, ghost children: seq<Child>)
      requires Valid()
      modifies this
      ensures Valid() && QueueRuns.Enabled(old(View()), ExpandTask(id, children))
      ensures View() == After(old(View()), Queue.ExpandDirectory(old(View()), id, children))
      ensures error == ErrorOf(Queue.ExpandDirectory(old(View()), id, children))
    {
      children := [];
      var savedFiles, savedTasks := files, tasks;
      error := Lookup(id, InFlight);
      if error.None? && !IsDirectoryTask(tasks[id]) {
        error := Some(Rejected);
      }
      if error.Some? {
        return;
      }
      var t := tasks[id];
      var listed := ListChildren(DirectorySource(t), DirectoryDestination(t));
      children := listed;
      ExpandStaysValid(View(), id, children, retryLimit);
      error := Expand(listed, t.priority);
      if error.None? {
        error := MarkDone(id, true);
      }
      if error.Some? {
        files, tasks := savedFiles, savedTasks;
      }
    }

    method Expand(children: seq<Child>, priority: int) returns (error: Option<StoreError>)
      requires Valid()
      modifies this`files, this`tasks
      ensures error == ErrorOf(ExpandAll(old(View()), children, priority))
      ensures error.None? ==> View() == ExpandAll(old(View()), children, priority).db
    {
      var k := 0;
      while k < |children|
        invariant k <= |children| && Valid()
        invariant ExpandAll(old(View()), children, priority) == ExpandAll(View(), children[k..], priority)
      {
        if ExpandOne(View(), children[k], priority).Committed? {
          ExpandOneKeeps(View(), children[k], priority, retryLimit);
        }
        error := ExpandChild(children[k], priority);
        if error.Some? {
          return;
        }
        assert children[k..][1..] == children[k + 1..];
        k := k + 1;
      }
      return None;
    }

    method ExpandChild(child: Child, priority: int) returns (error: Option<StoreError>)
      requires UniqueSlots(tasks)
      modifies this`files, this`tasks
      ensures error == ErrorOf(ExpandOne(old(View()), child, priority))
      ensures error.None? ==> View() == ExpandOne(old(View()), child, priority).db
    {
      if child.fileId !in files {
        return Some(NotFound);
      }
      var file := files[child.fileId];
      BumpById(child.fileId);
      error := EnqueueTx(match child.destination
        case None => Request(Some(child.fileId), file.path, Remove, None, file.generation + 1, priority, 0)
        case Some(path) => Request(Some(child.fileId), path, Relocate, Some(file.path), file.generation + 1, priority,
          0));
    }

    // ---------------------------------------------------------- removing a root

    /** The active rows of one path, as the fence groups them. */
    method Gather(p: Path) returns (group: Group)
      requires UniqueSlots(tasks)
      ensures group.path == p && Gathered(tasks, group)
    {
      var retry := FindSlot(p, RetryWait);
      var waiting := FindSlot(p, WaitingDep);
      assert retry.Some? ==> InSlot(tasks, retry.value, p, RetryWait);
      assert waiting.Some? ==> InSlot(tasks, waiting.value, p, WaitingDep);
      var parked: seq<nat>;
      if retry.Some? && waiting.Some? {
        parked := if ComesBefore(tasks, retry.value, waiting.value) then [retry.value, waiting.value]
          else [waiting.value, retry.value];
      } else {
        parked := if retry.Some? then [retry.value] else if waiting.Some? then [waiting.value] else [];
      }
      var rows := set i | i in tasks && tasks[i].path == p && IsActive(tasks[i].state);
      assert rows == ActiveRows(tasks, p);
      var newest := HighestGeneration(rows);
      var runnable := exists i :: i in tasks && RunnableAt(tasks, p, i);
      group := Group(p, newest, runnable, parked);
    }

    /** The distinct paths with active rows inside the root. */
    method ActivePaths(prefix: Path) returns (paths: seq<Path>)
      ensures Groups(tasks, prefix, paths)
    {
      paths := [];
      var rest := set i | i in tasks && IsActive(tasks[i].state) && Inside(prefix, tasks[i].path) :: tasks[i].path;
      ghost var all := rest;
      ActivePathsAre(tasks, prefix, all);
      while rest != {}
        invariant rest <= all && NoDuplicates(paths)
        invariant forall p :: p in all <==> p in rest || p in paths
        invariant forall p :: p in paths ==> p !in rest
      {
        var p :| p in rest;
        paths := paths + [p];
        rest := rest - {p};
      }
    }

    method GatherAll(prefix: Path) returns (groups: seq<Group>)
      requires UniqueSlots(tasks)
      ensures Groups(tasks, prefix, PathsOf(groups))
      ensures forall k :: 0 <= k < |groups| ==> Gathered(tasks, groups[k])
    {
      var paths := ActivePaths(prefix);
      groups := [];
      for k := 0 to |paths|
        invariant |groups| == k && forall i :: 0 <= i < k ==> groups[i].path == paths[i] && Gathered(tasks, groups[i])
      {
        var group := Gather(paths[k]);
        groups := groups + [group];
      }
      assert PathsOf(groups) == paths;
    }

    /** supersedeParkedPrefixTaskTx over a group's parked rows. */
    method RetireParked(parked: seq<nat>)
      requires NoDuplicates(parked) && forall i :: i in parked ==> i in tasks && !tasks[i].state.Done?
      modifies this`tasks
      ensures tasks == SupersedeAll(old(tasks), parked)
    {
      var k := 0;
      while k < |parked|
        invariant k <= |parked|
        invariant SupersedeAll(old(tasks), parked) == SupersedeAll(tasks, parked[k..])
        invariant forall i :: k <= i < |parked| ==> parked[i] in tasks && !tasks[parked[i]].state.Done?
      {
        assert parked[k..][1..] == parked[k + 1..];
        ghost var before := tasks;
        ClearDoneSlot(parked[k]);
        Move(parked[k], tasks[parked[k]].(state := Done), before);
        k := k + 1;
      }
    }

    /** fenceActivePrefixTasksTx for one group. */
    method FenceGroup(group: Group, cataloged: bool, priority: int)
      requires Valid() && group.path != "" && priority >= 0 && Gathered(tasks, group)
      requires cataloged <==> FileAt(files, group.path).Some?
      modifies this`tasks
      ensures FencePath(old(View()), group.path, priority) == Committed(View()) && Valid()
    {
      FenceStaysValid(View(), group.path, priority, retryLimit);
      FencePathIs(View(), group, cataloged, priority);
      WriteFence(group, cataloged, priority);
    }

    method WriteFence(group: Group, cataloged: bool, priority: int)
      requires NoDuplicates(group.parked) && forall i :: i in group.parked ==> i in tasks && !tasks[i].state.Done?
      requires UniqueSlots(SupersedeAll(tasks, group.parked))
      modifies this`tasks
      ensures View() == After(GroupRetired(old(View()), group), GroupFenced(old(View()), group, cataloged, priority))
    {
      RetireParked(group.parked);
      assert View() == GroupRetired(old(View()), group);
      if !cataloged && group.runnable {
        var error := EnqueueTx(Removal(group.path, group.generation + 1, priority));
      }
    }

    /** The fences, from the groups read before the first of them. */
    method FenceGroups(groups: seq<Group>, catalogPaths: set<Path>, priority: int, ghost prefix: Path)
      requires Valid() && priority >= 0 && Groups(tasks, prefix, PathsOf(groups))
      requires forall k :: 0 <= k < |groups| ==> Gathered(tasks, groups[k])
      requires forall p :: Inside(prefix, p) ==> (p in catalogPaths <==> FileAt(files, p).Some?)
      modifies this`tasks
      ensures FenceAll(old(View()), PathsOf(groups), priority) == Committed(View()) && Valid()
    {
      var k := 0;
      while k < |groups|
        invariant k <= |groups| && Valid()
        invariant FenceAll(old(View()), PathsOf(groups), priority) == FenceAll(View(), PathsOf(groups[k..]), priority)
        invariant forall j :: k <= j < |groups| ==> Gathered(tasks, groups[j])
      {
        var p := groups[k].path;
        assert PathsOf(groups)[k] == p && p in PathsOf(groups);
        ghost var before := View();
        FenceGroup(groups[k], p in catalogPaths, priority);
        RestStaysGathered(before, View(), groups, k, priority);
        FenceAllNext(before, View(), groups, k, priority);
        k := k + 1;
      }
    }

    /** EnqueuePrefixRemovals: every row inside raised with its remove, and every active path inside fenced. */
    method EnqueuePrefixRemovals(prefix: Path, priority: int)
      returns (error: Option<StoreError>, ghost children: seq<Child>, ghost paths: seq<Path>)
      requires Valid()
      modifies this`files, this`tasks
      ensures Valid() && (error.None? <==> ValidRemoval(prefix, priority))
      ensures ListsFor(old(View()), prefix, children, paths, priority)
      ensures View() == After(old(View()), RemovePrefix(old(View()), prefix, children, paths, priority))
      ensures error == ErrorOf(RemovePrefix(old(View()), prefix, children, paths, priority))
    {
      children, paths := [], [];
      if !ValidRemoval(prefix, priority) {
        return Some(Rejected), children, paths;
      }
      var listed := ListChildren(prefix, None);
      children := listed;
      var catalogPaths := set f | f in files && Inside(prefix, files[f].path) :: files[f].path;
      ListingCommits(View(), prefix, children, priority, retryLimit);
      error := Expand(listed, priority);
      CatalogPathsAre(old(View()), children, priority, prefix, catalogPaths, retryLimit);
      var groups := GatherAll(prefix);
      paths := PathsOf(groups);
      FenceGroups(groups, catalogPaths, priority, prefix);
    }

    // --------------------------------------------------------- single-row writes

    /** The catalog side of ReplaceVectorsForFileAndVersion and DeleteVectorsForFile. */
    method SetModel(f: nat, generation: int, model: Option<string>) returns (error: Option<StoreError>)
      requires Valid()
      modifies this`files
      ensures View() == After(old(View()), Queue.SetModel(old(View()), f, generation, model)) && Valid()
      ensures error == ErrorOf(Queue.SetModel(old(View()), f, generation, model))
    {
      SetModelKeeps(View(), f, generation, model, retryLimit);
      if f !in files {
        return Some(NotFound);
      }
      if files[f].generation != generation {
        return Some(StaleGeneration);
      }
      files := files[f := files[f].(model := model)];
      return None;
    }

    /** DeleteDeadLetterIfUnchanged. */
    method DropLetter(f: nat, generation: int) returns (deleted: bool)
      requires Valid()
      modifies this`dead
      ensures View() == Queue.DropLetter(old(View()), f, generation) && Valid()
      ensures deleted <==> f in old(dead) && old(dead)[f].generation == generation
    {
      DropLetterKeeps(View(), f, generation, retryLimit);
      deleted := f in dead && dead[f].generation == generation;
      if deleted {
        dead := dead - {f};
      }
    }

    /** RedriveDeadLetters by file id: each named letter once, in the order of first mention. */
    method Redrive(fileIds: seq<nat>, priority: int) returns (error: Option<StoreError>)
      requires Valid()
      modifies this
      ensures Valid() && (priority < 0 || fileIds == [] || 0 in fileIds ==>
        error == Some(Rejected) && View() == old(View()))
      ensures priority >= 0 && fileIds != [] && 0 !in fileIds ==>
        && View() == After(old(View()), RedriveAll(old(View()), Distinct(fileIds), priority))
        && error == ErrorOf(RedriveAll(old(View()), Distinct(fileIds), priority))
    {
      if priority < 0 || fileIds == [] || 0 in fileIds {
        return Some(Rejected);
      }
      var ids: seq<nat> := [];
      for k := 0 to |fileIds|
        invariant ids == Distinct(fileIds[..k])
      {
        assert fileIds[..k + 1][..k] == fileIds[..k];
        if fileIds[k] !in ids {
          ids := ids + [fileIds[k]];
        }
      }
      assert fileIds[..|fileIds|] == fileIds;
      error := RedriveLetters(ids, priority);
    }

    /** redriveDeadLettersTx. */
    method RedriveLetters(ids: seq<nat>, priority: int) returns (error: Option<StoreError>)
      requires Valid()
      modifies this
      ensures View() == After(old(View()), RedriveAll(old(View()), ids, priority)) && Valid()
      ensures error == ErrorOf(RedriveAll(old(View()), ids, priority))
    {
      var savedFiles, savedTasks, savedDead := files, tasks, dead;
      var k := 0;
      while k < |ids|
        invariant k <= |ids| && Valid()
        invariant RedriveAll(old(View()), ids, priority) == RedriveAll(View(), ids[k..], priority)
      {
        RedriveStaysValid(View(), ids[k], priority, retryLimit);
        error := RedriveLetter(ids[k], priority);
        if error.Some? {
          files, tasks, dead := savedFiles, savedTasks, savedDead;
          return;
        }
        assert ids[k..][1..] == ids[k + 1..];
        k := k + 1;
      }
      return None;
    }

    method RedriveLetter(f: nat, priority: int) returns (error: Option<StoreError>)
      requires UniqueSlots(tasks)
      modifies this
      ensures error == ErrorOf(RedriveOne(old(View()), f, priority))
      ensures View() == After(old(View()), RedriveOne(old(View()), f, priority))
    {
      if f !in dead || f !in files {
        return Some(NotFound);
      }
      if files[f].generation > dead[f].generation {
        return None;
      }
      error := EnqueueTx(Request(Some(f), dead[f].path, Upsert, None, files[f].generation, priority, 0));
      if error.None? {
        dead := dead - {f};
        files := files[f := files[f].(status := PendingFile)];
      }
    }

    /** SELECT ... ORDER BY file_id LIMIT n. */
    static method LowestIds(eligible: set<nat>, n: nat) returns (ids: seq<nat>)
      ensures IsPage(eligible, n, ids)
    {
      ids := [];
      var rest := eligible;
      while rest != {} && |ids| < n
        invariant forall i :: i in eligible <==> i in ids || i in rest
        invariant |ids| + |rest| == |eligible| && |ids| <= n
        invariant forall a, b :: 0 <= a < b < |ids| ==> ids[a] < ids[b]
        invariant forall i, j :: i in ids && j in rest ==> i < j
        decreases rest
      {
        var first :| first in rest;
        var unseen := rest - {first};
        while unseen != {}
          invariant unseen <= rest && first in rest && first !in unseen
          invariant forall j :: j in rest && j !in unseen ==> first <= j
        {
          var k :| k in unseen;
          first := if k < first then k else first;
          unseen := unseen - {k};
        }
        assert forall a :: 0 <= a < |ids| ==> ids[a] in ids && ids[a] < first;
        ids := ids + [first];
        rest := rest - {first};
      }
    }

    /** EnqueueEmbedModelUpgradeBatch: the first page of candidates in id order, and whether more are left. */
    method UpgradeModel(model: string, priority: int, limit: int)
      returns (error: Option<StoreError>, hasMore: bool, ghost ids: seq<nat>)
      requires Valid()
      modifies this`files, this`tasks
      ensures Valid() && (!ValidVersion(model) || priority < 0 ==> error == Some(Rejected) && View() == old(View()))
      ensures ValidVersion(model) && priority >= 0 ==>
        && IsPage(CandidatesFor(old(files), model), PageSize(limit), ids)
        && (hasMore <==> |CandidatesFor(old(files), model)| > PageSize(limit))
        && View() == After(old(View()), UpgradeAll(old(View()), ids, model, priority))
        && error == ErrorOf(UpgradeAll(old(View()), ids, model, priority))
    {
      hasMore, ids := false, [];
      if !ValidVersion(model) || priority < 0 {
        return Some(Rejected), hasMore, ids;
      }
      var eligible := set f | f in files && UpgradeCandidate(files[f], model);
      assert eligible == CandidatesFor(files, model);
      var page := LowestIds(eligible, PageSize(limit));
      hasMore := |eligible| > PageSize(limit);
      ids := page;
      error := UpgradeFiles(page, model, priority);
    }

    method UpgradeFiles(ids: seq<nat>, model: string, priority: int) returns (error: Option<StoreError>)
      requires Valid()
      modifies this`files, this`tasks
      ensures View() == After(old(View()), UpgradeAll(old(View()), ids, model, priority)) && Valid()
      ensures error == ErrorOf(UpgradeAll(old(View()), ids, model, priority))
    {
      var savedFiles, savedTasks := files, tasks;
      var k := 0;
      while k < |ids|
        invariant k <= |ids| && Valid() && dead == old(dead)
        invariant UpgradeAll(old(View()), ids, model, priority) == UpgradeAll(View(), ids[k..], model, priority)
      {
        UpgradeStepKeeps(View(), ids[k], model, priority, retryLimit);
        error := UpgradeFile(ids[k], model, priority);
        if error.Some? {
          files, tasks := savedFiles, savedTasks;
          return;
        }
        assert ids[k..][1..] == ids[k + 1..];
        k := k + 1;
      }
      return None;
    }

    method UpgradeFile(f: nat, model: string, priority: int) returns (error: Option<StoreError>)
      requires UniqueSlots(tasks)
      modifies this`files, this`tasks
      ensures error == ErrorOf(UpgradeOne(old(View()), f, model, priority))
      ensures error.None? ==> View() == UpgradeOne(old(View()), f, model, priority).db
    {
      error := None;
      if f in files && UpgradeCandidate(files[f], model) {
        var request := Request(Some(f), files[f].path, Upsert, None, files[f].generation + 1, priority, 0);
        files := files[f := files[f].(generation := files[f].generation + 1, indexedAt := None)];
        error := EnqueueTx(request);
      }
    }

    /** EnqueueMediaBackfill. */
    method Backfill(f: nat, generation: int, priority: int) returns (error: Option<StoreError>)
      requires Valid()
      modifies this`files, this`tasks
      ensures View() == After(old(View()), Queue.Backfill(old(View()), f, generation, priority)) && Valid()
      ensures error == ErrorOf(Queue.Backfill(old(View()), f, generation, priority))
    {
      BackfillKeeps(View(), f, generation, priority, retryLimit);
      error := None;
      if f in files && files[f].generation == generation && files[f].kind.OtherKind? && Visible(files[f]) {
        var saved := files;
        files := files[f := files[f].(generation := generation + 1, status := PendingFile, indexedAt := None)];
        error := EnqueueTx(Request(Some(f), files[f].path, Upsert, None, generation + 1, priority, 0));
        if error.Some? {
          files := saved;
        }
      }
    }
  }

  lemma EventStaysValid(db: Db, e: Event, limit: nat)
    requires Inv(db, limit)
    ensures Allocate(db, e).Allocated? && Inv(After(db, Queue.EnqueueEvent(db, e)), limit)
  {
    AllocationAnchored(db, e, limit);
    EventKeeps(db, e, limit);
  }

  lemma ReconcileStaysValid(db: Db, o: Observation, limit: nat)
    requires Inv(db, limit)
    ensures Queue.Reconcile(db, o).ScanEnqueued? ==> Inv(Queue.Reconcile(db, o).db, limit)
  {
    ReconcileKeeps(db, o, limit);
  }

  lemma RetryStaysValid(db: Db, id: nat, dueAt: int, refund: bool, limit: nat)
    requires Inv(db, limit)
    requires !refund && id in db.tasks && db.tasks[id].state.InFlight? ==>
      ShouldRetry(true, FailureAttempts(db.tasks[id]), limit)
    ensures Inv(After(db, Queue.MarkRetry(db, id, dueAt, refund)), limit)
  {
    MarkRetryKeeps(db, id, dueAt, refund, limit);
  }

  lemma DeathStaysValid(db: Db, id: nat, limit: nat)
    requires Inv(db, limit)
    ensures Inv(After(db, Queue.MarkDead(db, id)), limit)
  {
    MarkDeadKeeps(db, id, limit);
  }

  lemma ClaimStaysValid(db: Db, ids: set<nat>, now: int, source: Source, limit: nat)
    requires forall i :: i in ids ==> Claimable(db.tasks, i, now, source)
    ensures Inv(db, limit) ==> Inv(Queue.Claim(db, ids), limit)
  {
    if Inv(db, limit) {
      ClaimKeepsInv(db, ids, now, source, limit);
    }
  }

  lemma ExpandStaysValid(db: Db, id: nat, children: seq<Child>, limit: nat)
    requires Inv(db, limit)
    ensures Inv(After(db, Queue.ExpandDirectory(db, id, children)), limit)
  {
    ExpandDirectoryKeeps(db, id, children, limit);
  }

  /** The rows of one path inside a removed root. */
  datatype Group = Group(path: Path, generation: int, runnable: bool, parked: seq<nat>)

  function PathsOf(groups: seq<Group>): seq<Path> {
    seq(|groups|, i requires 0 <= i < |groups| => groups[i].path)
  }

  ghost predicate Gathered(tasks: map<nat, Task>, group: Group) {
    UniqueSlots(tasks) && Describes(tasks, group)
  }

  ghost predicate Describes(tasks: map<nat, Task>, group: Group) {
    && group.generation == NewestActive(tasks, group.path) && (group.runnable <==> HasRunnable(tasks, group.path))
    && group.parked == ParkedOrder(tasks, group.path)
  }

  ghost function GroupRetired(db: Db, group: Group): Db {
    db.(tasks := SupersedeAll(db.tasks, group.parked))
  }

  ghost function GroupFenced(db: Db, group: Group, cataloged: bool, priority: int): Outcome {
    if !cataloged && group.runnable
    then Queue.Enqueue(GroupRetired(db, group), Removal(group.path, group.generation + 1, priority))
    else Committed(GroupRetired(db, group))
  }

  lemma FencePathIs(db: Db, group: Group, cataloged: bool, priority: int)
    requires Describes(db.tasks, group) && (cataloged <==> FileAt(db.files, group.path).Some?)
    ensures FencePath(db, group.path, priority) == GroupFenced(db, group, cataloged, priority)
  {
  }

  lemma GatheredStays(before: map<nat, Task>, after: map<nat, Task>, group: Group)
    requires Gathered(before, group) && UniqueSlots(after) && UntouchedAt(before, after, group.path)
    ensures Gathered(after, group)
  {
    SameFences(before, after, group.path);
    SameParkedOrder(before, after, group.path);
  }

  lemma SameParkedOrder(before: map<nat, Task>, after: map<nat, Task>, p: Path)
    requires UniqueSlots(before) && UniqueSlots(after) && UntouchedAt(before, after, p)
    ensures ParkedOrder(before, p) == ParkedOrder(after, p)
  {
    SameSlot(before, after, p, RetryWait);
    SameSlot(before, after, p, WaitingDep);
  }

  lemma FenceAllNext(before: Db, after: Db, groups: seq<Group>, k: nat, priority: int)
    requires k < |groups| && FencePath(before, groups[k].path, priority) == Committed(after)
    ensures FenceAll(before, PathsOf(groups[k..]), priority) == FenceAll(after, PathsOf(groups[k + 1..]), priority)
  {
    assert PathsOf(groups[k..])[0] == groups[k].path;
    assert PathsOf(groups[k..])[1..] == PathsOf(groups[k + 1..]);
  }

  /** A fence at one path leaves the other groups as they were read. */
  lemma RestStaysGathered(before: Db, after: Db, groups: seq<Group>, k: nat, priority: int)
    requires UniqueSlots(before.tasks) && k < |groups| && NoDuplicates(PathsOf(groups))
    requires FencePath(before, groups[k].path, priority) == Committed(after)
    requires forall j :: k <= j < |groups| ==> Gathered(before.tasks, groups[j])
    ensures after.files == before.files
    ensures forall j :: k < j < |groups| ==> Gathered(after.tasks, groups[j])
  {
    FenceUntouched(before, groups[k].path, priority, groups[k].path);
    forall j | k < j < |groups|
      ensures Gathered(after.tasks, groups[j])
    {
      assert PathsOf(groups)[j] != PathsOf(groups)[k];
      FenceUntouched(before, groups[k].path, priority, groups[j].path);
      GatheredStays(before.tasks, after.tasks, groups[j]);
    }
  }

  lemma SameSlot(before: map<nat, Task>, after: map<nat, Task>, p: Path, state: TaskState)
    requires UniqueSlots(before) && UniqueSlots(after) && UntouchedAt(before, after, p)
    ensures Slot(before, p, state) == Slot(after, p, state)
    ensures Slot(before, p, state).Some? ==> InSlot(before, Slot(before, p, state).value, p, state)
    ensures Slot(after, p, state).Some? ==> InSlot(after, Slot(after, p, state).value, p, state)
  {
    if i :| InSlot(before, i, p, state) {
      SlotIs(before, i);
      SlotIs(after, i);
    } else {
      assert forall j :: InSlot(after, j, p, state) ==> InSlot(before, j, p, state);
    }
  }

  lemma FenceStaysValid(db: Db, p: Path, priority: int, limit: nat)
    requires Inv(db, limit) && p != "" && priority >= 0
    ensures FencePath(db, p, priority).Committed? && Inv(FencePath(db, p, priority).db, limit)
    ensures UniqueSlots(SupersedeAll(db.tasks, ParkedOrder(db.tasks, p)))
    ensures var parked := ParkedOrder(db.tasks, p);
      NoDuplicates(parked) && forall i :: i in parked ==> i in db.tasks && !db.tasks[i].state.Done?
  {
    FenceFences(db, p, priority);
    FenceKeepsInv(db, p, priority, limit);
    ParkedOrderIs(db.tasks, p);
    RetireAll(db.tasks, p, ParkedOrder(db.tasks, p));
    RetiredRows(db, p);
  }

  lemma ActivePathsAre(tasks: map<nat, Task>, prefix: Path, all: set<Path>)
    requires all == set i | i in tasks && IsActive(tasks[i].state) && Inside(prefix, tasks[i].path) :: tasks[i].path
    ensures forall p :: p in all <==> Inside(prefix, p) && ActiveAt(tasks, p)
  {
  }

  lemma ListingCommits(db: Db, prefix: Path, children: seq<Child>, priority: int, limit: nat)
    requires Inv(db, limit) && Lists(db.files, prefix, None, children) && ValidRemoval(prefix, priority)
    ensures ExpandAll(db, children, priority).Committed? && Inv(ExpandAll(db, children, priority).db, limit)
  {
    ListedApart(db.files, prefix, None, children);
    forall i | 0 <= i < |children|
      ensures children[i].destination.None? && Inside(prefix, db.files[children[i].fileId].path)
    {
      assert IsChild(db.files, prefix, None, children[i]);
    }
    ExpansionCommits(db, children, priority);
    ExpandAllKeeps(db, children, priority, limit);
  }

  lemma CatalogPathsAre(db: Db, children: seq<Child>, priority: int, prefix: Path, catalogPaths: set<Path>, limit: nat)
    requires Inv(db, limit) && Lists(db.files, prefix, None, children) && ValidRemoval(prefix, priority)
    requires catalogPaths == set f | f in db.files && Inside(prefix, db.files[f].path) :: db.files[f].path
    ensures ExpandAll(db, children, priority).Committed?
    ensures forall p :: Inside(prefix, p) ==>
      (p in catalogPaths <==> FileAt(ExpandAll(db, children, priority).db.files, p).Some?)
  {
    ListedApart(db.files, prefix, None, children);
    ListingCommits(db, prefix, children, priority, limit);
    forall p | Inside(prefix, p)
      ensures p in catalogPaths <==> FileAt(ExpandAll(db, children, priority).db.files, p).Some?
    {
      SameListing(db, children, priority, p);
      if f :| f in db.files && db.files[f].path == p {
        FileAtIs(db.files, f);
      }
    }
  }

  /** What a parking batch validates before its first write. */
  ghost predicate Parkable(db: Db, ids: seq<nat>) {
    ids != [] && NoDuplicates(ids) && 0 !in ids && forall i :: i in ids ==> TransitionError(db, i, InFlight).None?
  }

  ghost function Unparked(tasks: map<nat, Task>, ids: seq<nat>): map<nat, Task> {
    map j | j in tasks && !ClearedByParking(tasks, ids, j) :: tasks[j]
  }

  /** Earlier members of a batch sit at other paths, so they clear nothing of the next one's. */
  lemma ClearingNext(tasks: map<nat, Task>, ids: seq<nat>, k: nat)
    requires UniqueSlots(tasks) && NoDuplicates(ids) && k < |ids|
    requires forall i :: i in ids ==> i in tasks && tasks[i].state.InFlight?
    ensures var before := Unparked(tasks, ids[..k]);
      && ids[k] in before && UniqueSlots(before) && before[ids[k]] == tasks[ids[k]]
      && (NewerOccupant(before, ids[k], before[ids[k]], WaitingDep)
        <==> NewerOccupant(tasks, ids[k], tasks[ids[k]], WaitingDep))
      && Unparked(tasks, ids[..k + 1]) == WithoutOthers(before, ids[k], WaitingDep)
  {
    var id := ids[k];
    var before := Unparked(tasks, ids[..k]);
    assert forall i :: i in ids[..k] ==> i in ids && i != id && tasks[i].path != tasks[id].path;
    forall j | j in tasks && tasks[j].path == tasks[id].path
      ensures j in before
    {
    }
    forall j | j in tasks
      ensures ClearedByParking(tasks, ids[..k + 1], j) <==>
        ClearedByParking(tasks, ids[..k], j)
        || (j != id && tasks[j].path == tasks[id].path && tasks[j].state.WaitingDep?)
    {
      assert ids[..k + 1] == ids[..k] + [id];
      assert id in ids[..k + 1];
    }
  }

  lemma ParkingIs(tasks: map<nat, Task>, ids: seq<nat>)
    requires forall i :: i in ids ==> i in tasks && tasks[i].state.InFlight?
    ensures forall i :: i in ids ==> i in Unparked(tasks, ids)
    ensures var rest := Unparked(tasks, ids);
      (map j | j in rest :: if j in ids then Parked(rest[j]) else rest[j]) == ParkedRows(tasks, ids)
  {
  }

  lemma ReleaseLeaves(db: Db, ids: seq<nat>, state: TaskState)
    requires UniqueSlots(db.tasks) && Candidates(db.tasks, ids, state) && (state.RetryWait? || state.WaitingDep?)
    ensures var after := ReleaseAll(db, ids).tasks;
      forall i :: i in after && after[i].state == state ==> i in db.tasks && i !in ids
  {
    forall i | i in ReleaseAll(db, ids).tasks && ReleaseAll(db, ids).tasks[i].state == state
      ensures i in db.tasks && i !in ids
    {
      ReleaseUnparks(db, ids, state, i);
    }
  }

  const RELEASE_BATCH := 1000

  function ReleaseBatch(limit: int): int {
    if limit <= 0 then RELEASE_BATCH else limit
  }

  ghost function ReleasableRows(tasks: map<nat, Task>, state: TaskState, now: int): set<nat> {
    set i | i in tasks && tasks[i].state == state && (state.RetryWait? ==> tasks[i].dueAt <= now)
  }

  ghost function ClaimableRows(tasks: map<nat, Task>, now: int, source: Source): set<nat> {
    set i | i in tasks && Claimable(tasks, i, now, source)
  }

  /** The rows left once nothing else holds the (path, state) slot of row id. */
  ghost function WithoutOthers(tasks: map<nat, Task>, id: nat, state: TaskState): map<nat, Task>
    requires id in tasks
  {
    map j | j in tasks && (j == id || tasks[j].path != tasks[id].path || tasks[j].state != state) :: tasks[j]
  }

  ghost function InspectionOf(db: Db, o: Observation): ScanResult {
    if !ValidObservation(o) then Failure(Rejected)
    else if !ObservationHolds(db, o) then Stale
    else if Covered(db.tasks, o.path, o.op, if o.seen.Some? then o.seen.value.generation else 0) then AlreadyCovered
    else Queued
  }

  /** RecoveryResult. */
  datatype Counts = Counts(requeued: nat, poisoned: nat, superseded: nat)

  function Result(db: Db, counts: Counts): Recovery {
    Recovery(db, counts.requeued, counts.poisoned, counts.superseded)
  }

  lemma RecoverOneIs(db: Db, counts: Counts, id: nat)
    requires id in db.tasks
    ensures var t := db.tasks[id];
      var moved := db.(tasks := Place(db.tasks, id, Crashed(t)));
      RecoverOne(Result(db, counts), id) ==
        if NewerOccupant(db.tasks, id, t, CrashTarget(t))
        then Result(db.(tasks := db.tasks - {id}), counts.(superseded := counts.superseded + 1))
        else if CrashTarget(t).Dead? then Result(RecordDeath(moved, id), counts.(poisoned := counts.poisoned + 1))
        else Result(moved, counts.(requeued := counts.requeued + 1))
  {
  }

  const UPGRADE_PAGE := 256
  const UPGRADE_PAGE_LIMIT := 10_000

  function PageSize(limit: int): nat {
    if limit <= 0 then UPGRADE_PAGE else if limit > UPGRADE_PAGE_LIMIT then UPGRADE_PAGE_LIMIT else limit
  }

  /** A model version is not blank and neither starts nor ends with a blank. */
  predicate ValidVersion(model: string) {
    model != "" && model[0] !in BLANKS && model[|model| - 1] !in BLANKS
  }

  ghost function CandidatesFor(files: map<nat, File>, model: string): set<nat> {
    set f | f in files && UpgradeCandidate(files[f], model)
  }

  /** The n lowest of the eligible ids, in order. */
  ghost predicate IsPage(eligible: set<nat>, n: nat, ids: seq<nat>) {
    && (forall a, b :: 0 <= a < b < |ids| ==> ids[a] < ids[b])
    && (forall i :: i in ids ==> i in eligible) && |ids| == Min(n, |eligible|)
    && (forall i, j :: i in ids && j in eligible && j !in ids ==> i < j)
  }

  /** Every id once, in the order of first mention. */
  function Distinct(ids: seq<nat>): (distinct: seq<nat>)
    ensures NoDuplicates(distinct) && forall i :: i in distinct <==> i in ids
    decreases |ids|
  {
    if ids == [] then [] else
    var shorter := Distinct(ids[..|ids| - 1]);
    assert ids == ids[..|ids| - 1] + [ids[|ids| - 1]];
    if ids[|ids| - 1] in shorter then shorter else shorter + [ids[|ids| - 1]]
  }

  lemma RedriveStaysValid(db: Db, f: nat, priority: int, limit: nat)
    requires Inv(db, limit)
    ensures Inv(After(db, RedriveOne(db, f, priority)), limit)
  {
    RedriveOneKeeps(db, f, priority, limit);
  }

  lemma UpgradeStepKeeps(db: Db, f: nat, model: string, priority: int, limit: nat)
    requires Inv(db, limit)
    ensures Inv(After(db, UpgradeOne(db, f, model, priority)), limit)
  {
    if f in db.files && UpgradeCandidate(db.files[f], model) && UpgradeOne(db, f, model, priority).Committed? {
      UpgradeOneKeeps(db, f, model, priority, limit);
    }
  }

  lemma RecoverStep(r: Recovery, ids: seq<nat>, limit: nat)
    requires Inv(r.db, limit) && ids != [] && Candidates(r.db.tasks, ids, InFlight)
    ensures ids[0] in r.db.tasks
    ensures Inv(RecoverOne(r, ids[0]).db, limit) && Candidates(RecoverOne(r, ids[0]).db.tasks, ids[1..], InFlight)
    ensures RecoverAll(r, ids) == RecoverAll(RecoverOne(r, ids[0]), ids[1..])
  {
    RecoverOneShape(r, ids[0]);
    RecoverOneKeeps(r, ids[0], limit);
    RestAreCandidates(r.db.tasks, RecoverOne(r, ids[0]).db.tasks, ids, InFlight);
  }

  datatype ScanResult = Queued | AlreadyCovered | Stale | Failure(error: StoreError)

  function ResultOf(o: ScanOutcome): ScanResult {
    match o
    case ScanEnqueued(_) => Queued
    case ScanCovered => AlreadyCovered
    case ScanStale => Stale
    case ScanFailed(error) => Failure(error)
  }

  function ErrorOf(o: Outcome): Option<StoreError> {
    if o.RolledBack? then Some(o.error) else None
  }
}
