/**
 * Removing a watch root fences the work inside it, path by path: parked tasks
 * are retired, and running or pending ones get a newer remove. Unlike the other
 * transactions it allocates without raising the catalog, and retires without
 * comparing generations; this is exactly what that costs.
 */
module QueueFence {
  import opened Basics
  import opened Catalog
  import opened Queue
  import opened QueueInvariant
  import opened QueueLeases
  import opened QueueLanding

  predicate ParkedAt(tasks: map<nat, Task>, p: Path, id: nat) {
    id in tasks && tasks[id].path == p && (tasks[id].state.RetryWait? || tasks[id].state.WaitingDep?)
  }

  predicate RunnableAt(tasks: map<nat, Task>, p: Path, id: nat) {
    id in tasks && tasks[id].path == p && (tasks[id].state.Pending? || tasks[id].state.InFlight?)
  }

  ghost predicate HasRunnable(tasks: map<nat, Task>, p: Path) {
    exists id :: RunnableAt(tasks, p, id)
  }

  predicate ComesBefore(tasks: map<nat, Task>, i: nat, j: nat)
    requires i in tasks && j in tasks
  {
    tasks[i].generation > tasks[j].generation || (tasks[i].generation == tasks[j].generation && i > j)
  }

  /** ORDER BY generation DESC, task_id DESC within one path. */
  ghost predicate ParkedInOrder(tasks: map<nat, Task>, p: Path, ids: seq<nat>) {
    && NoDuplicates(ids) && (forall id :: id in ids <==> ParkedAt(tasks, p, id))
    && (forall i, j :: 0 <= i < j < |ids| && ids[i] in tasks && ids[j] in tasks ==> ComesBefore(tasks, ids[i], ids[j]))
  }

  /** The parked rows of one path in that order. */
  ghost function ParkedOrder(tasks: map<nat, Task>, p: Path): seq<nat> {
    var retry, waiting := Slot(tasks, p, RetryWait), Slot(tasks, p, WaitingDep);
    if retry.None? && waiting.None? then []
    else if waiting.None? then [retry.value]
    else if retry.None? then [waiting.value]
    else if retry.value in tasks && waiting.value in tasks && ComesBefore(tasks, retry.value, waiting.value)
    then [retry.value, waiting.value] else [waiting.value, retry.value]
  }

  lemma ParkedOrderIs(tasks: map<nat, Task>, p: Path)
    requires UniqueSlots(tasks)
    ensures ParkedInOrder(tasks, p, ParkedOrder(tasks, p))
  {
    var retry, waiting := Slot(tasks, p, RetryWait), Slot(tasks, p, WaitingDep);
    assert retry.Some? ==> InSlot(tasks, retry.value, p, RetryWait);
    assert waiting.Some? ==> InSlot(tasks, waiting.value, p, WaitingDep);
    forall id
      ensures id in ParkedOrder(tasks, p) <==> ParkedAt(tasks, p, id)
    {
      if ParkedAt(tasks, p, id) {
        SlotIs(tasks, id);
      }
    }
  }

  /** supersedeParkedPrefixTaskTx: done, displacing whatever was done at the path. */
  ghost function Supersede(tasks: map<nat, Task>, id: nat): map<nat, Task>
    requires id in tasks
  {
    Place(tasks, id, tasks[id].(state := Done))
  }

  ghost function SupersedeAll(tasks: map<nat, Task>, ids: seq<nat>): map<nat, Task>
    decreases |ids|
  {
    if ids == [] || ids[0] !in tasks then tasks else SupersedeAll(Supersede(tasks, ids[0]), ids[1..])
  }

  ghost function ActiveRows(tasks: map<nat, Task>, p: Path): set<nat> {
    set id | id in tasks && tasks[id].path == p && IsActive(tasks[id].state)
  }

  ghost function NewestActive(tasks: map<nat, Task>, p: Path): int {
    MaxGeneration(tasks, ActiveRows(tasks, p))
  }

  function Removal(p: Path, generation: int, priority: int): Request {
    Request(None, p, Remove, None, generation, priority, 0)
  }

  /** Only work without a catalog row needs one: the others got theirs from the expansion. */
  ghost predicate NeedsSuccessor(db: Db, p: Path) {
    FileAt(db.files, p).None? && HasRunnable(db.tasks, p)
  }

  /** fenceActivePrefixTasksTx for one path. */
  ghost function FencePath(db: Db, p: Path, priority: int): Outcome {
    var retired := db.(tasks := SupersedeAll(db.tasks, ParkedOrder(db.tasks, p)));
    if NeedsSuccessor(db, p) then Enqueue(retired, Removal(p, NewestActive(db.tasks, p) + 1, priority))
    else Committed(retired)
  }

  // -------------------------------------------------------------- what it keeps

  /** At most two rows of one path are parked: one for a retry, one for the dependency. */
  lemma AtMostTwoParked(tasks: map<nat, Task>, p: Path, ids: seq<nat>)
    requires UniqueSlots(tasks) && ParkedInOrder(tasks, p, ids)
    ensures |ids| <= 2
  {
    assert forall i :: 0 <= i < |ids| ==> ids[i] in ids;
    var states := seq(|ids|, i requires 0 <= i < |ids| => tasks[ids[i]].state);
    DistinctWithin(states, {RetryWait, WaitingDep});
  }

  /** Of the parked rows only the last, oldest one is left, done in place of whatever was. */
  ghost function Retired(tasks: map<nat, Task>, p: Path, parked: seq<nat>): map<nat, Task> {
    if parked == [] then tasks else
    var last := parked[|parked| - 1];
    map j | j in tasks && (j == last || (j !in parked && !(tasks[j].path == p && tasks[j].state.Done?))) ::
      if j == last then tasks[j].(state := Done) else tasks[j]
  }

  lemma RetireTwo(tasks: map<nat, Task>, p: Path, a: nat, b: nat)
    requires UniqueSlots(tasks) && ParkedAt(tasks, p, a) && ParkedAt(tasks, p, b) && a != b
    ensures b in Supersede(tasks, a)
    ensures Supersede(Supersede(tasks, a), b) == Retired(tasks, p, [a, b])
  {
    var mid := Supersede(tasks, a);
    assert mid[b] == tasks[b] && mid[a].state.Done?;
  }

  lemma SupersedeTwo(tasks: map<nat, Task>, a: nat, b: nat)
    requires a in tasks && b in Supersede(tasks, a)
    ensures SupersedeAll(tasks, [a, b]) == Supersede(Supersede(tasks, a), b)
  {
    assert [a, b][1..] == [b] && [b][1..] == [];
    assert SupersedeAll(Supersede(tasks, a), [b]) == SupersedeAll(Supersede(Supersede(tasks, a), b), []);
  }

  lemma SupersedeOne(tasks: map<nat, Task>, p: Path, a: nat)
    requires UniqueSlots(tasks) && ParkedAt(tasks, p, a)
    ensures SupersedeAll(tasks, [a]) == Retired(tasks, p, [a])
  {
    assert [a][1..] == [];
  }

  lemma RetireAll(tasks: map<nat, Task>, p: Path, ids: seq<nat>)
    requires UniqueSlots(tasks) && ParkedInOrder(tasks, p, ids)
    ensures SupersedeAll(tasks, ids) == Retired(tasks, p, ids)
  {
    AtMostTwoParked(tasks, p, ids);
    assert forall i :: 0 <= i < |ids| ==> ids[i] in ids;
    if |ids| == 1 {
      assert ids == [ids[0]];
      SupersedeOne(tasks, p, ids[0]);
    } else if |ids| == 2 {
      assert ids == [ids[0], ids[1]];
      RetireTwo(tasks, p, ids[0], ids[1]);
      SupersedeTwo(tasks, ids[0], ids[1]);
    } else {
      assert ids == [];
    }
  }

  lemma RetiredUnique(tasks: map<nat, Task>, p: Path, ids: seq<nat>)
    requires UniqueSlots(tasks) && ParkedInOrder(tasks, p, ids)
    ensures UniqueSlots(Retired(tasks, p, ids))
  {
    assert ids != [] ==> ids[|ids| - 1] in ids;
  }

  // ----------------------------------------------------------------- the fence

  /** Whatever is active at the path has a strictly newer remove pending behind it. */
  ghost predicate Fenced(tasks: map<nat, Task>, p: Path) {
    forall i :: i in tasks && tasks[i].path == p && IsActive(tasks[i].state) ==> Outrun(tasks, p, i)
  }

  ghost predicate Outrun(tasks: map<nat, Task>, p: Path, i: nat)
    requires i in tasks
  {
    exists q :: InSlot(tasks, q, p, Pending) && tasks[q].op.Remove?
      && (i == q || tasks[i].generation < tasks[q].generation)
  }

  /** The same, of pending and running rows only. */
  ghost predicate RunnableFenced(tasks: map<nat, Task>, p: Path) {
    forall i :: RunnableAt(tasks, p, i) ==> Outrun(tasks, p, i)
  }

  ghost function RetiredDb(db: Db, p: Path): Db {
    db.(tasks := Retired(db.tasks, p, ParkedOrder(db.tasks, p)))
  }

  lemma FenceIs(db: Db, p: Path, priority: int)
    requires UniqueSlots(db.tasks)
    ensures FencePath(db, p, priority) ==
      if NeedsSuccessor(db, p) then Enqueue(RetiredDb(db, p), Removal(p, NewestActive(db.tasks, p) + 1, priority))
      else Committed(RetiredDb(db, p))
  {
    ParkedOrderIs(db.tasks, p);
    RetireAll(db.tasks, p, ParkedOrder(db.tasks, p));
  }

  /** What retiring leaves: no parked row of the path, and every runnable row of it as it was. */
  lemma RetiredRows(db: Db, p: Path)
    requires UniqueSlots(db.tasks)
    ensures UniqueSlots(RetiredDb(db, p).tasks)
    ensures forall j :: !ParkedAt(RetiredDb(db, p).tasks, p, j)
    ensures forall j :: RunnableAt(RetiredDb(db, p).tasks, p, j) <==> RunnableAt(db.tasks, p, j)
    ensures forall j :: RunnableAt(db.tasks, p, j) ==> RetiredDb(db, p).tasks[j] == db.tasks[j]
    ensures forall j :: j in RetiredDb(db, p).tasks ==>
      && j in db.tasks && db.tasks[j].path == RetiredDb(db, p).tasks[j].path
      && db.tasks[j].generation == RetiredDb(db, p).tasks[j].generation
        && db.tasks[j].fileId == RetiredDb(db, p).tasks[j].fileId
    ensures OnlyAt(db.tasks, RetiredDb(db, p).tasks, p)
  {
    var ids := ParkedOrder(db.tasks, p);
    ParkedOrderIs(db.tasks, p);
    RetiredUnique(db.tasks, p, ids);
    assert ids != [] ==> ids[|ids| - 1] in ids;
  }

  lemma NewestBounds(tasks: map<nat, Task>, p: Path)
    ensures forall j :: j in tasks && tasks[j].path == p && IsActive(tasks[j].state) ==>
      tasks[j].generation <= NewestActive(tasks, p)
  {
    forall j | j in tasks && tasks[j].path == p && IsActive(tasks[j].state)
      ensures tasks[j].generation <= NewestActive(tasks, p)
    {
      assert j in ActiveRows(tasks, p);
    }
  }

  function Successor(tasks: map<nat, Task>, q: nat, e: Request): Task {
    if q in tasks then Coalesce(tasks[q], e) else NewRow(e)
  }

  /** The successor: a pending remove above everything that was active at the path. */
  lemma SuccessorIs(db: Db, p: Path, priority: int) returns (q: nat)
    requires UniqueSlots(db.tasks) && p != "" && priority >= 0 && NeedsSuccessor(db, p)
    ensures var e := Removal(p, NewestActive(db.tasks, p) + 1, priority);
      && FencePath(db, p, priority) == Committed(db.(tasks := RetiredDb(db,
        p).tasks[q := Successor(RetiredDb(db, p).tasks, q, e)]))
      && (q in RetiredDb(db, p).tasks <==> exists i :: InSlot(db.tasks, i, p, Pending))
      && (q in RetiredDb(db, p).tasks ==> InSlot(db.tasks, q, p, Pending) && RetiredDb(db, p).tasks[q] == db.tasks[q])
  {
    FenceIs(db, p, priority);
    RetiredRows(db, p);
    var retired := RetiredDb(db, p).tasks;
    q := EnqueueShape(RetiredDb(db, p), Removal(p, NewestActive(db.tasks, p) + 1, priority));
    forall i
      ensures InSlot(retired, i, p, Pending) <==> InSlot(db.tasks, i, p, Pending)
    {
      assert InSlot(retired, i, p, Pending) ==> RunnableAt(retired, p, i);
      assert InSlot(db.tasks, i, p, Pending) ==> RunnableAt(db.tasks, p, i);
    }
    assert InSlot(db.tasks, q, p, Pending) ==> RunnableAt(db.tasks, p, q);
  }

  lemma SuccessorLeads(db: Db, p: Path, priority: int) returns (q: nat)
    requires UniqueSlots(db.tasks) && p != "" && priority >= 0 && NeedsSuccessor(db, p)
    ensures FencePath(db, p, priority).Committed?
    ensures var after := FencePath(db, p, priority).db.tasks;
      && InSlot(after, q, p, Pending) && after[q].op.Remove? && after[q].generation == NewestActive(db.tasks, p) + 1
      && (forall i :: i in after && after[i].path == p && i != q && IsActive(after[i].state) ==>
            i in db.tasks && db.tasks[i] == after[i])
  {
    q := SuccessorIs(db, p, priority);
    RetiredRows(db, p);
    NewestBounds(db.tasks, p);
    var after := FencePath(db, p, priority).db.tasks;
    forall i | i in after && after[i].path == p && i != q && IsActive(after[i].state)
      ensures i in db.tasks && db.tasks[i] == after[i]
    {
      assert !ParkedAt(RetiredDb(db, p).tasks, p, i);
      assert RunnableAt(RetiredDb(db, p).tasks, p, i);
    }
  }

  /** After a fence, work the catalog does not list is fenced; the rest is if the expansion already fenced it. */
  lemma FenceFences(db: Db, p: Path, priority: int)
    requires UniqueSlots(db.tasks) && p != "" && priority >= 0
    ensures FencePath(db, p, priority).Committed?
    ensures Fenced(FencePath(db, p, priority).db.tasks, p)
      <==> (FileAt(db.files, p).Some? ==> RunnableFenced(db.tasks, p))
  {
    FenceIs(db, p, priority);
    RetiredRows(db, p);
    if NeedsSuccessor(db, p) {
      var q := SuccessorLeads(db, p, priority);
      NewestBounds(db.tasks, p);
      var after := FencePath(db, p, priority).db.tasks;
      forall i | i in after && after[i].path == p && IsActive(after[i].state)
        ensures Outrun(after, p, i)
      {
        assert InSlot(after, q, p, Pending);
      }
    } else {
      RetiredFenced(db, p);
    }
  }

  lemma RetiredFenced(db: Db, p: Path)
    requires UniqueSlots(db.tasks)
    ensures Fenced(RetiredDb(db, p).tasks, p) <==> RunnableFenced(db.tasks, p)
    ensures !HasRunnable(db.tasks, p) ==> RunnableFenced(db.tasks, p)
  {
    var after := RetiredDb(db, p).tasks;
    RetiredRows(db, p);
    forall i | RunnableAt(db.tasks, p, i)
      ensures Outrun(after, p, i) <==> Outrun(db.tasks, p, i)
    {
      assert RunnableAt(after, p, i);
      OutrunStays(db.tasks, after, p, i);
    }
    forall i | i in after && after[i].path == p && IsActive(after[i].state)
      ensures RunnableAt(after, p, i) && RunnableAt(db.tasks, p, i)
    {
      assert !ParkedAt(after, p, i);
      assert RunnableAt(after, p, i);
    }
  }

  lemma OutrunStays(before: map<nat, Task>, after: map<nat, Task>, p: Path, i: nat)
    requires RunnableAt(before, p, i) && RunnableAt(after, p, i)
    requires forall j :: RunnableAt(after, p, j) <==> RunnableAt(before, p, j)
    requires forall j :: RunnableAt(before, p, j) ==> j in after && after[j] == before[j]
    ensures Outrun(after, p, i) <==> Outrun(before, p, i)
  {
    if Outrun(before, p, i) {
      var q :|
        InSlot(before, q, p, Pending) && before[q].op.Remove?
        && (i == q || before[i].generation < before[q].generation);
      assert RunnableAt(before, p, q) && InSlot(after, q, p, Pending);
    }
    if Outrun(after, p, i) {
      var q :|
        InSlot(after, q, p, Pending) && after[q].op.Remove? && (i == q || after[i].generation < after[q].generation);
      assert RunnableAt(after, p, q) && InSlot(before, q, p, Pending);
    }
  }

  /** A fence touches rows of its own path only, and no catalog row or dead letter. */
  lemma FenceUntouched(db: Db, p: Path, priority: int, other: Path)
    requires UniqueSlots(db.tasks) && FencePath(db, p, priority).Committed?
    ensures FencePath(db, p, priority).db.files == db.files && FencePath(db, p, priority).db.dead == db.dead
    ensures other != p ==> UntouchedAt(db.tasks, FencePath(db, p, priority).db.tasks, other)
    ensures UniqueSlots(FencePath(db, p, priority).db.tasks)
  {
    FenceIs(db, p, priority);
    RetiredRows(db, p);
    if NeedsSuccessor(db, p) {
      var e := Removal(p, NewestActive(db.tasks, p) + 1, priority);
      EnqueueFrame(RetiredDb(db, p), e);
      EnqueueUnique(RetiredDb(db, p), e);
      if other != p {
        EnqueueUntouched(RetiredDb(db, p), e, other);
        UntouchedChain(db.tasks, RetiredDb(db, p).tasks, FencePath(db, p, priority).db.tasks, other);
      }
    }
  }

  lemma FenceKeepsInv(db: Db, p: Path, priority: int, limit: nat)
    requires Inv(db, limit) && FencePath(db, p, priority).Committed?
    ensures Inv(FencePath(db, p, priority).db, limit)
  {
    FenceIs(db, p, priority);
    RetiredKeepsInv(db, p, limit);
    if NeedsSuccessor(db, p) {
      EnqueueKeepsInv(RetiredDb(db, p), Removal(p, NewestActive(db.tasks, p) + 1, priority), limit);
    }
  }

  lemma RetiredKeepsInv(db: Db, p: Path, limit: nat)
    requires Inv(db, limit)
    ensures Inv(RetiredDb(db, p), limit) && (AllAnchored(db) ==> AllAnchored(RetiredDb(db, p)))
  {
    RetiredRows(db, p);
    SameAnchors(db, RetiredDb(db, p));
    forall j | j in RetiredDb(db, p).tasks
      ensures RowOk(RetiredDb(db, p).tasks[j], limit) && Rooted(RetiredDb(db, p).tasks[j], db.files)
    {
      RetiredRowIs(db.tasks, p, j);
      assert RowOk(db.tasks[j], limit) && Rooted(db.tasks[j], db.files);
    }
  }

  /** A row is left as it was, or done where it was parked. */
  lemma RetiredRowIs(tasks: map<nat, Task>, p: Path, j: nat)
    requires UniqueSlots(tasks) && j in Retired(tasks, p, ParkedOrder(tasks, p))
    ensures j in tasks
    ensures var row := Retired(tasks, p, ParkedOrder(tasks, p))[j];
      row == tasks[j] || (ParkedAt(tasks, p, j) && row == tasks[j].(state := Done))
  {
    var ids := ParkedOrder(tasks, p);
    ParkedOrderIs(tasks, p);
    assert ids != [] ==> ids[|ids| - 1] in ids;
  }

  // ---------------------------------------------------------------- what it costs

  /** The pending row a successor would renew is anchored to a catalog row no newer than the work being fenced. */
  ghost predicate RenewsAnchored(db: Db, p: Path) {
    exists q :: Renews(db, p, q)
  }

  ghost predicate Renews(db: Db, p: Path, q: nat) {
    InSlot(db.tasks, q, p, Pending) && db.tasks[q].fileId.Some? && db.tasks[q].fileId.value in db.files
    && db.files[db.tasks[q].fileId.value].generation <= NewestActive(db.tasks, p)
  }

  /**
   * The fence leaves a task ahead of its catalog row exactly when the pending row
   * it renews is anchored to a row that old.
   */
  lemma FenceAnchors(db: Db, p: Path, priority: int)
    requires UniqueSlots(db.tasks) && AnchoredAt(db, p) && p != "" && priority >= 0
    ensures FencePath(db, p, priority).Committed?
    ensures AnchoredAt(FencePath(db, p, priority).db, p) <==> !(NeedsSuccessor(db, p) && RenewsAnchored(db, p))
  {
    FenceIs(db, p, priority);
    RetiredRows(db, p);
    forall i | i in RetiredDb(db, p).tasks && db.tasks[i].path == p
      ensures AnchorOk(RetiredDb(db, p).tasks[i], db.files)
    {
      assert AnchorOk(db.tasks[i], db.files);
    }
    if NeedsSuccessor(db, p) {
      var q := SuccessorIs(db, p, priority);
      SuccessorAnchors(db, p, priority, q);
    }
  }

  lemma SuccessorAnchors(db: Db, p: Path, priority: int, q: nat)
    requires UniqueSlots(db.tasks) && AnchoredAt(db, p)
    requires var retired := RetiredDb(db, p).tasks;
      && FencePath(db, p, priority)
         == Committed(db.(tasks := retired[q := Successor(retired, q,
           Removal(p, NewestActive(db.tasks, p) + 1, priority))]))
      && (q in retired <==> exists i :: InSlot(db.tasks, i, p, Pending))
      && (q in retired ==> InSlot(db.tasks, q, p, Pending) && retired[q] == db.tasks[q])
    ensures AnchoredAt(FencePath(db, p, priority).db, p) <==> !RenewsAnchored(db, p)
  {
    var after := FencePath(db, p, priority).db;
    RetiredRows(db, p);
    NewestBounds(db.tasks, p);
    forall i | i in after.tasks && after.tasks[i].path == p && i != q
      ensures AnchorOk(after.tasks[i], db.files)
    {
      assert AnchorOk(db.tasks[i], db.files);
    }
    assert AnchoredAt(after, p) <==> AnchorOk(after.tasks[q], db.files);
    if k :| InSlot(db.tasks, k, p, Pending) {
      assert k == q && AnchorOk(db.tasks[q], db.files);
      assert Renews(db, p, q) <==> !AnchorOk(after.tasks[q], db.files);
    }
  }

  ghost predicate LosesNothingAt(before: map<nat, Task>, after: map<nat, Task>, p: Path) {
    forall i :: i in before && before[i].path == p && !before[i].state.Done? ==> Survives(before[i], after)
  }

  /** A row of the path that a fence leaves in place, at least as new. */
  ghost predicate Stands(tasks: map<nat, Task>, p: Path, generation: int) {
    exists j :: StandsBy(tasks, p, generation, j)
  }

  predicate StandsBy(tasks: map<nat, Task>, p: Path, generation: int, j: nat) {
    && j in tasks && tasks[j].path == p && (RunnableAt(tasks, p, j) || tasks[j].state.Dead?)
    && tasks[j].generation >= generation
  }

  /** Two parked rows of different age and nothing else as new: retiring both keeps only the older one. */
  ghost predicate ForgetsNewest(tasks: map<nat, Task>, p: Path) {
    exists a, b :: ParkedAt(tasks, p, a) && ParkedAt(tasks, p, b) && tasks[a].generation > tasks[b].generation
      && !Stands(tasks, p, tasks[a].generation)
  }

  /** The other transactions never drop work without an equal or newer row; a fence does in exactly this case. */
  lemma FenceForgets(db: Db, p: Path, priority: int)
    requires UniqueSlots(db.tasks) && p != "" && priority >= 0
    ensures FencePath(db, p, priority).Committed?
    ensures LosesNothingAt(db.tasks, FencePath(db, p, priority).db.tasks, p)
      <==> !(ForgetsNewest(db.tasks, p) && !NeedsSuccessor(db, p))
  {
    FenceIs(db, p, priority);
    ParkedOrderIs(db.tasks, p);
    if NeedsSuccessor(db, p) {
      SuccessorSurvives(db, p, priority);
    } else if ForgetsNewest(db.tasks, p) {
      var a, b :| ParkedAt(db.tasks, p, a) && ParkedAt(db.tasks, p, b)
        && db.tasks[a].generation > db.tasks[b].generation
        && !Stands(db.tasks, p, db.tasks[a].generation);
      OnlyOlderLeft(db, p, a, b);
    } else {
      forall i | i in db.tasks && db.tasks[i].path == p && !db.tasks[i].state.Done?
        ensures Survives(db.tasks[i], RetiredDb(db, p).tasks)
      {
        RowSurvives(db, p, i);
      }
    }
  }

  lemma SuccessorSurvives(db: Db, p: Path, priority: int)
    requires UniqueSlots(db.tasks) && p != "" && priority >= 0 && NeedsSuccessor(db, p)
    ensures FencePath(db, p, priority).Committed?
    ensures LosesNothingAt(db.tasks, FencePath(db, p, priority).db.tasks, p)
  {
    var q := SuccessorLeads(db, p, priority);
    var k := SuccessorIs(db, p, priority);
    NewestBounds(db.tasks, p);
    RetiredRows(db, p);
    var after := FencePath(db, p, priority).db.tasks;
    forall i | i in db.tasks && db.tasks[i].path == p && !db.tasks[i].state.Done?
      ensures Survives(db.tasks[i], after)
    {
      if db.tasks[i].state.Dead? {
        DeadRowStays(db, p, i);
        assert i != k && i in after && after[i].path == p && after[i].generation >= db.tasks[i].generation;
      } else {
        assert IsActive(db.tasks[i].state) && after[q].path == p;
      }
    }
  }

  lemma DeadRowStays(db: Db, p: Path, i: nat)
    requires UniqueSlots(db.tasks) && i in db.tasks && db.tasks[i].state.Dead?
    ensures i in RetiredDb(db, p).tasks && RetiredDb(db, p).tasks[i] == db.tasks[i]
  {
    ParkedOrderIs(db.tasks, p);
    var ids := ParkedOrder(db.tasks, p);
    assert ids != [] ==> ids[|ids| - 1] in ids;
  }

  /** Which parked row is left, when there are two. */
  lemma OlderIsLast(tasks: map<nat, Task>, p: Path, a: nat, b: nat)
    requires UniqueSlots(tasks) && ParkedAt(tasks, p, a) && ParkedAt(tasks, p, b) && a != b
    requires tasks[a].generation >= tasks[b].generation
    ensures var ids := ParkedOrder(tasks, p);
      ids == [a, b] || (ids == [b, a] && tasks[a].generation == tasks[b].generation)
  {
    var ids := ParkedOrder(tasks, p);
    ParkedOrderIs(tasks, p);
    AtMostTwoParked(tasks, p, ids);
    assert a in ids && b in ids;
    assert ids == [a, b] || ids == [b, a];
  }

  lemma OnlyOlderLeft(db: Db, p: Path, a: nat, b: nat)
    requires UniqueSlots(db.tasks) && ParkedAt(db.tasks, p, a) && ParkedAt(db.tasks, p, b)
    requires db.tasks[a].generation > db.tasks[b].generation && !Stands(db.tasks, p, db.tasks[a].generation)
    ensures !LosesNothingAt(db.tasks, RetiredDb(db, p).tasks, p)
  {
    OlderIsLast(db.tasks, p, a, b);
    ParkedOrderIs(db.tasks, p);
    var after := RetiredDb(db, p).tasks;
    forall j | j in after && db.tasks[j].path == p
      ensures db.tasks[j].generation < db.tasks[a].generation
    {
      assert j == b || RunnableAt(db.tasks, p, j) || db.tasks[j].state.Dead? || ParkedAt(db.tasks, p, j);
      assert !StandsBy(db.tasks, p, db.tasks[a].generation, j);
    }
    assert !Survives(db.tasks[a], after);
  }

  lemma RowSurvives(db: Db, p: Path, i: nat)
    requires UniqueSlots(db.tasks) && !ForgetsNewest(db.tasks, p)
    requires i in db.tasks && db.tasks[i].path == p && !db.tasks[i].state.Done?
    ensures Survives(db.tasks[i], RetiredDb(db, p).tasks)
  {
    var after := RetiredDb(db, p).tasks;
    var ids := ParkedOrder(db.tasks, p);
    ParkedOrderIs(db.tasks, p);
    AtMostTwoParked(db.tasks, p, ids);
    if i in after {
      assert after[i].path == p;
    } else {
      assert ParkedAt(db.tasks, p, i) && i in ids && |ids| == 2;
      var last := ids[1];
      assert last in ids && ParkedAt(db.tasks, p, last) && i == ids[0];
      if db.tasks[i].generation > db.tasks[last].generation {
        var j :| StandsBy(db.tasks, p, db.tasks[i].generation, j);
        assert j !in ids && j in after;
      } else {
        assert last in after && after[last].path == p;
      }
    }
  }
}
