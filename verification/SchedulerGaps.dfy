/**
 * Where a claimed task escapes the dispatch guarantees: a refund that a newer
 * retry row refuses, and a row id that comes back for another path.
 */
module SchedulerGaps {
  import opened Basics
  import opened Catalog
  import opened Queue
  import opened QueueGaps
  import opened QueueRuns
  import opened RowIds
  import opened Paths
  import Budget
  import Sched = Scheduler

  // ------------------------------------------------------------ a refused refund

  const WRITE_B := Event("/b", Upsert, None, 0, 5, 0)
  const MOVE_TO_B := Event("/b", Relocate, Some("/a"), 0, 5, 0)

  function RowB(generation: int): Task {
    Task(None, "/b", Upsert, None, generation, Pending, 5, 0, 0, 0, 1, [])
  }

  function QueuedB(generation: int): Db {
    Db(map[], map[1 := RowB(generation)], map[])
  }

  const WAITING_B := RowB(3).(state := RetryWait, dueAt := 100)
  const MOVING_A := Task(Some(1), "/b", Relocate, Some("/a"), 2, Pending, 5, 0, 0, 0, 1, [])

  const CLAIMED_B := Db(map[], map[1 := Claimed(RowB(3))], map[])
  const REFUNDED_B := Db(map[], map[1 := WAITING_B], map[])
  const QUEUED_A := Db(map[], map[1 := WAITING_B, 2 := RowA(1)], map[])
  const CLAIMED_A := Db(map[], map[1 := WAITING_B, 2 := Claimed(RowA(1))], map[])
  const PREPARED_A := Db(map[1 := FILE_A], map[1 := WAITING_B, 2 := Claimed(RowA(1)).(fileId := Some(1))], map[])
  const QUEUED_MOVE := Db(
    map[1 := FILE_A.(generation := 2)],
    map[1 := WAITING_B, 2 := Claimed(RowA(1)).(fileId := Some(1)), 3 := MOVING_A],
    map[])
  const CLAIMED_MOVE := Db(
    map[1 := FILE_A.(generation := 2)],
    map[1 := WAITING_B, 2 := Claimed(RowA(1)).(fileId := Some(1)), 3 := Claimed(MOVING_A)],
    map[])

  lemma FirstB(from: Db, limit: nat)
    requires Leads(from, EMPTY, limit)
    ensures Leads(from, QueuedB(1), limit)
  {
    assert NextRowId({}) == 1;
    Extend(from, EMPTY, WatchEvent(WRITE_B), limit);
  }

  lemma MoreIs(generation: int, limit: nat)
    requires generation >= 1
    ensures Perform(QueuedB(generation), WatchEvent(WRITE_B), limit) == QueuedB(generation + 1)
  {
    var db := QueuedB(generation);
    SlotIs(db.tasks, 1);
    assert RowsAt(db.tasks, {"/b"}) == {1};
  }

  lemma MoreB(from: Db, generation: int, limit: nat)
    requires generation >= 1 && Leads(from, QueuedB(generation), limit)
    ensures Leads(from, QueuedB(generation + 1), limit)
  {
    MoreIs(generation, limit);
    Extend(from, QueuedB(generation), WatchEvent(WRITE_B), limit);
  }

  lemma ClaimB(from: Db, limit: nat)
    requires Leads(from, QueuedB(3), limit)
    ensures Leads(from, CLAIMED_B, limit)
  {
    assert Perform(QueuedB(3), ClaimTasks({1}, 0, AnySource), limit) == CLAIMED_B;
    Extend(from, QueuedB(3), ClaimTasks({1}, 0, AnySource), limit);
  }

  lemma RefundB(from: Db, limit: nat)
    requires Leads(from, CLAIMED_B, limit)
    ensures Leads(from, REFUNDED_B, limit)
  {
    assert Perform(CLAIMED_B, RefundDispatch(1, 100), limit) == REFUNDED_B;
    Extend(from, CLAIMED_B, RefundDispatch(1, 100), limit);
  }

  lemma EventA(from: Db, limit: nat)
    requires Leads(from, REFUNDED_B, limit)
    ensures Leads(from, QUEUED_A, limit)
  {
    assert REFUNDED_B.tasks.Keys == {1};
    assert RowsAt(REFUNDED_B.tasks, {"/a"}) == {};
    assert Perform(REFUNDED_B, WatchEvent(WRITE_A), limit) == QUEUED_A;
    Extend(from, REFUNDED_B, WatchEvent(WRITE_A), limit);
  }

  lemma ClaimA(from: Db, limit: nat)
    requires Leads(from, QUEUED_A, limit)
    ensures Leads(from, CLAIMED_A, limit)
  {
    assert Perform(QUEUED_A, ClaimTasks({2}, 0, AnySource), limit) == CLAIMED_A;
    Extend(from, QUEUED_A, ClaimTasks({2}, 0, AnySource), limit);
  }

  lemma PrepareA(from: Db, limit: nat)
    requires Leads(from, CLAIMED_A, limit)
    ensures Leads(from, PREPARED_A, limit)
  {
    assert NextRowId({}) == 1;
    assert Perform(CLAIMED_A, PrepareTask(2, FILE_A), limit) == PREPARED_A;
    Extend(from, CLAIMED_A, PrepareTask(2, FILE_A), limit);
  }

  lemma MoveA(from: Db, limit: nat)
    requires Leads(from, PREPARED_A, limit)
    ensures Leads(from, QUEUED_MOVE, limit)
  {
    FileAtIs(PREPARED_A.files, 1);
    assert PREPARED_A.tasks.Keys == {1, 2};
    assert Perform(PREPARED_A, WatchEvent(MOVE_TO_B), limit) == QUEUED_MOVE;
    Extend(from, PREPARED_A, WatchEvent(MOVE_TO_B), limit);
  }

  lemma ClaimMove(from: Db, limit: nat)
    requires Leads(from, QUEUED_MOVE, limit)
    ensures Leads(from, CLAIMED_MOVE, limit)
  {
    assert Perform(QUEUED_MOVE, ClaimTasks({3}, 0, AnySource), limit) == CLAIMED_MOVE;
    Extend(from, QUEUED_MOVE, ClaimTasks({3}, 0, AnySource), limit);
  }

  lemma ToClaimedMove(limit: nat)
    ensures Reachable(CLAIMED_MOVE, limit)
  {
    Here(EMPTY, limit);
    FirstB(EMPTY, limit);
    MoreB(EMPTY, 1, limit);
    MoreB(EMPTY, 2, limit);
    ClaimB(EMPTY, limit);
    RefundB(EMPTY, limit);
    EventA(EMPTY, limit);
    ClaimA(EMPTY, limit);
    PrepareA(EMPTY, limit);
    MoveA(EMPTY, limit);
    ClaimMove(EMPTY, limit);
  }

  /** A claimed task can be neither dispatched nor refunded: its path has a newer retry row. */
  lemma RefundCanBeRefused(limit: nat, dueAt: int)
    ensures Reachable(CLAIMED_MOVE, limit) && CLAIMED_MOVE.tasks[3].state.InFlight?
    ensures Sched.Conflicts(Sched.ScopeFor(CLAIMED_MOVE.tasks[3]), map[2 := Sched.ScopeFor(CLAIMED_MOVE.tasks[2])])
    ensures MarkRetry(CLAIMED_MOVE, 3, dueAt, true) == RolledBack(StaleGeneration)
  {
    ToClaimedMove(limit);
    assert NewerOccupant(CLAIMED_MOVE.tasks, 3, CLAIMED_MOVE.tasks[3], RetryWait) by {
      assert 1 in CLAIMED_MOVE.tasks;
    }
    var mine, other := Sched.ScopeFor(CLAIMED_MOVE.tasks[3]), Sched.ScopeFor(CLAIMED_MOVE.tasks[2]);
    assert mine.exact[1] == "/a" == other.exact[0];
    assert "/a" in mine.exact && ExactMeets("/a", other);
    assert Overlaps(mine, map[2 := other][2]);
  }

  /** A refund is refused exactly when a newer retry row holds the path. */
  lemma RefundRefusedIff(db: Db, id: nat, dueAt: int)
    requires id in db.tasks && db.tasks[id].state.InFlight?
    ensures MarkRetry(db, id, dueAt, true).RolledBack? <==> NewerOccupant(db.tasks, id, db.tasks[id], RetryWait)
  {
  }

  // ------------------------------------------------------------- a reused row id

  /**
   * In every run, a row leased again while its earlier lease's entry is still
   * there cannot overwrite it, unless the row left the table in between.
   */
  lemma RowThatStaysIsExcluded(
    states: seq<Db>, actions: seq<Action>, limit: nat, i: nat, j: nat, inFlight: map<nat, Scope>, c: Sched.ClaimedTask)
    requires Run(states, actions, limit) && states[0] == EMPTY && i <= j <= |actions|
    requires c.id in states[i].tasks && c.id in inFlight && inFlight[c.id] == Sched.ScopeFor(states[i].tasks[c.id])
    requires c.id in states[j].tasks ==> c.task == states[j].tasks[c.id]
    requires forall k :: i <= k < j ==> !DropsAt(states, actions, k, c.id)
    ensures Sched.Conflicts(Sched.ScopeFor(c.task), inFlight) && !Sched.Overwrites(inFlight, c)
  {
    RowKeepsPathInRun(states, actions, limit, i, j, c.id);
    Sched.SamePathExcludes(c.task, states[i].tasks[c.id]);
  }

  const RELEASED_A := Db(map[], map[1 := RowA(1), 2 := Claimed(RowA(2))], map[])
  const PARKED_A := Db(map[], map[1 := RowA(1), 2 := Parked(Claimed(RowA(2)))], map[])
  const ABSORBED_A := Db(map[], map[1 := Absorb(RowA(1), Parked(Claimed(RowA(2))))], map[])
  const REUSED_B := Db(map[], map[1 := Absorb(RowA(1), Parked(Claimed(RowA(2)))), 2 := RowB(1)], map[])
  const LEASED_B := Db(map[], map[1 := Absorb(RowA(1), Parked(Claimed(RowA(2)))), 2 := Claimed(RowB(1))], map[])

  lemma ReleaseRetry(from: Db, limit: nat)
    requires Leads(from, LEASED_AGAIN, limit)
    ensures Leads(from, RELEASED_A, limit)
  {
    assert ReleaseAll(LEASED_AGAIN, [1]) == ReleaseAll(ReleaseOne(LEASED_AGAIN, 1), []) by {
      assert [1][1..] == [];
    }
    assert ReleaseOne(LEASED_AGAIN, 1) == RELEASED_A;
    Extend(from, LEASED_AGAIN, ReleaseTasks([1], RetryWait), limit);
  }

  lemma ParkSecond(from: Db, limit: nat)
    requires Leads(from, RELEASED_A, limit)
    ensures Leads(from, PARKED_A, limit)
  {
    assert CanPark(RELEASED_A, [2]);
    assert 2 in [2];
    assert Perform(RELEASED_A, ParkTasks([2]), limit) == PARKED_A;
    Extend(from, RELEASED_A, ParkTasks([2]), limit);
  }

  lemma ReleaseParked(from: Db, limit: nat)
    requires Leads(from, PARKED_A, limit)
    ensures Leads(from, ABSORBED_A, limit)
  {
    assert ReleaseAll(PARKED_A, [2]) == ReleaseAll(ReleaseOne(PARKED_A, 2), []) by {
      assert [2][1..] == [];
    }
    SlotIs(PARKED_A.tasks, 1);
    assert ReleaseOne(PARKED_A, 2) == ABSORBED_A;
    Extend(from, PARKED_A, ReleaseTasks([2], WaitingDep), limit);
  }

  lemma NewB(from: Db, limit: nat)
    requires Leads(from, ABSORBED_A, limit)
    ensures Leads(from, REUSED_B, limit)
  {
    assert ABSORBED_A.tasks.Keys == {1};
    assert RowsAt(ABSORBED_A.tasks, {"/b"}) == {};
    assert Perform(ABSORBED_A, WatchEvent(WRITE_B), limit) == REUSED_B;
    Extend(from, ABSORBED_A, WatchEvent(WRITE_B), limit);
  }

  lemma ClaimReused(from: Db, limit: nat)
    requires Leads(from, REUSED_B, limit)
    ensures Leads(from, LEASED_B, limit)
  {
    assert Perform(REUSED_B, ClaimTasks({2}, 0, AnySource), limit) == LEASED_B;
    Extend(from, REUSED_B, ClaimTasks({2}, 0, AnySource), limit);
  }

  lemma ReusedIsReachable(limit: nat)
    ensures Reachable(LEASED_AGAIN, limit) && Leads(LEASED_AGAIN, LEASED_B, limit)
  {
    ToLeasedAgain(limit);
    Here(LEASED_AGAIN, limit);
    ReleaseRetry(LEASED_AGAIN, limit);
    ParkSecond(LEASED_AGAIN, limit);
    ReleaseParked(LEASED_AGAIN, limit);
    NewB(LEASED_AGAIN, limit);
    ClaimReused(LEASED_AGAIN, limit);
  }

  /**
   * Row 2 is leased for /a, absorbed while its completion is still on the way,
   * and reused and leased for /b: nothing in flight keeps the second lease out.
   */
  lemma RowIdCanBeReused(limit: nat)
    ensures Reachable(LEASED_AGAIN, limit) && Leads(LEASED_AGAIN, LEASED_B, limit)
    ensures LEASED_AGAIN.tasks[2].state.InFlight? && LEASED_B.tasks[2].state.InFlight?
    ensures Sched.Overwrites(
      map[2 := Sched.ScopeFor(LEASED_AGAIN.tasks[2])], Sched.ClaimedTask(2, LEASED_B.tasks[2], Budget.FreshWork))
  {
    ReusedIsReachable(limit);
  }

  /** The removal of the directory "/", as a watch event queues it. */
  const SWEEP := Task(None, "/", Remove, None, 1, Pending, 5, 0, 0, 0, 1, [])

  /**
   * The first lease's late completion then frees the second lease's scope: a
   * directory removal above /b, excluded until then, is no longer, although
   * the task of /b is still in flight.
   */
  lemma LateCompletionFreesReused()
    ensures var overwritten := map[2 := Sched.ScopeFor(LEASED_B.tasks[2])];
      && LEASED_B.tasks[2].state.InFlight? && Sched.Conflicts(Sched.ScopeFor(SWEEP), overwritten)
      && !Sched.Conflicts(Sched.ScopeFor(SWEEP), overwritten - {2})
  {
    var scope := Sched.ScopeFor(LEASED_B.tasks[2]);
    var sweep := Sched.ScopeFor(SWEEP);
    assert sweep.prefixes[0] == "/" && scope.exact[0] == "/b";
    assert EndsWith("/", SEPARATOR) && "/b"[..1] == "/";
    assert Within("/", "/b");
    assert Reserves(sweep, "/b") by {
      assert "/" in sweep.prefixes;
    }
    assert Reserves(scope, "/b") by {
      assert "/b" in scope.exact;
    }
    OverlapIsSharing(sweep, scope);
    assert 2 in map[2 := scope];
  }
}
