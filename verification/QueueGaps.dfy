/** Runs that reach the queue's exceptions: a dropped event, a root removal that misses work, and what removals cost. */
module QueueGaps {
  import opened Basics
  import opened Catalog
  import opened Paths
  import opened Queue
  import opened QueueLanding
  import opened QueueFence
  import opened QueueRemoval
  import opened RemovalCost
  import opened QueueRuns

  const WRITE_A := Event("/a", Upsert, None, 0, 5, 0)
  const REMOVE_A := Event("/a", Remove, None, 0, 5, 0)
  const FILE_A := File("/a", TextKind, 1, PendingFile, None, None, 0)

  function RowA(generation: int): Task {
    Task(None, "/a", Upsert, None, generation, Pending, 5, 0, 0, 0, 1, [])
  }

  // ------------------------------------------------------------ an event is dropped

  const QUEUED := Db(map[], map[1 := RowA(1)], map[])
  const LEASED := Db(map[], map[1 := Claimed(RowA(1))], map[])

  function LeasedBefore(generation: int): Db {
    Db(map[], map[1 := Claimed(RowA(1)), 2 := RowA(generation)], map[])
  }

  /** The first task has just created the row behind the back of a newer, unanchored one. */
  function PreparedBefore(generation: int): Db {
    Db(map[1 := FILE_A], map[1 := Claimed(RowA(1)).(fileId := Some(1)), 2 := RowA(generation)], map[])
  }

  const BEHIND := PreparedBefore(3)

  lemma FirstWriteIs(limit: nat)
    ensures Perform(EMPTY, WatchEvent(WRITE_A), limit) == QUEUED
    ensures Perform(QUEUED, ClaimTasks({1}, 0, AnySource), limit) == LEASED
  {
    assert NextRowId({}) == 1;
  }

  lemma SecondWriteIs(limit: nat)
    ensures Perform(LEASED, WatchEvent(WRITE_A), limit) == LeasedBefore(2)
  {
    assert LEASED.tasks.Keys == {1};
    assert EventPaths(WRITE_A) == {"/a"} && RowsAt(LEASED.tasks, {"/a"}) == {1};
  }

  lemma FirstPrepareIs(generation: int, limit: nat)
    ensures Perform(LeasedBefore(generation), PrepareTask(1, FILE_A), limit) == PreparedBefore(generation)
  {
    assert NextRowId({}) == 1;
  }

  lemma FirstWrite(from: Db, limit: nat)
    requires Leads(from, EMPTY, limit)
    ensures Leads(from, LEASED, limit)
  {
    FirstWriteIs(limit);
    Extend(from, EMPTY, WatchEvent(WRITE_A), limit);
    Extend(from, QUEUED, ClaimTasks({1}, 0, AnySource), limit);
  }

  lemma SecondWrite(from: Db, limit: nat)
    requires Leads(from, LEASED, limit)
    ensures Leads(from, LeasedBefore(2), limit)
  {
    SecondWriteIs(limit);
    Extend(from, LEASED, WatchEvent(WRITE_A), limit);
  }

  lemma ThirdWriteIs(limit: nat)
    ensures Perform(LeasedBefore(2), WatchEvent(WRITE_A), limit) == LeasedBefore(3)
  {
    ThirdAllocation();
    ThirdEnqueue();
  }

  lemma ThirdEnqueue()
    ensures Enqueue(LeasedBefore(2), Request(None, "/a", Upsert, None, 3, 5, 0)) == Committed(LeasedBefore(3))
  {
    SlotIs(LeasedBefore(2).tasks, 2);
    assert Coalesce(RowA(2), Request(None, "/a", Upsert, None, 3, 5, 0)) == RowA(3);
  }

  lemma ThirdAllocation()
    ensures Allocate(LeasedBefore(2), WRITE_A)
      == Allocated(LeasedBefore(2), Request(None, "/a", Upsert, None, 3, 5, 0))
  {
    var db := LeasedBefore(2);
    SlotIs(db.tasks, 2);
    assert EventPaths(WRITE_A) == {"/a"} && RowsAt(db.tasks, {"/a"}) == {1, 2};
  }

  lemma ThirdWrite(from: Db, limit: nat)
    requires Leads(from, LeasedBefore(2), limit)
    ensures Leads(from, LeasedBefore(3), limit)
  {
    ThirdWriteIs(limit);
    Extend(from, LeasedBefore(2), WatchEvent(WRITE_A), limit);
  }

  lemma FirstPrepare(from: Db, limit: nat)
    requires Leads(from, LeasedBefore(3), limit)
    ensures Leads(from, BEHIND, limit)
  {
    FirstPrepareIs(3, limit);
    Extend(from, LeasedBefore(3), PrepareTask(1, FILE_A), limit);
  }

  lemma BehindIsReachable(limit: nat)
    ensures Reachable(BEHIND, limit)
  {
    Here(EMPTY, limit);
    FirstWrite(EMPTY, limit);
    SecondWrite(EMPTY, limit);
    ThirdWrite(EMPTY, limit);
    FirstPrepare(EMPTY, limit);
  }

  /** There a remove commits, raises the catalog row, and leaves no trace in the queue. */
  lemma EventCanBeDropped(limit: nat)
    ensures Reachable(BEHIND, limit) && EnqueueEvent(BEHIND, REMOVE_A).Committed?
    ensures var after := EnqueueEvent(BEHIND, REMOVE_A).db;
      && after.files[1].generation == BEHIND.files[1].generation + 1 && after.tasks == BEHIND.tasks
      && Trails(BEHIND, REMOVE_A) && !Pends(after.tasks, Allocate(BEHIND, REMOVE_A).request)
  {
    BehindIsReachable(limit);
    RunsAreSound(BEHIND, limit);
    FileAtIs(BEHIND.files, 1);
    SlotIs(BEHIND.tasks, 2);
    assert Trails(BEHIND, REMOVE_A) by {
      assert InSlot(BEHIND.tasks, 2, "/a", Pending);
    }
    EventLands(BEHIND, REMOVE_A, limit);
  }

  lemma RunsAreSound(db: Db, limit: nat)
    requires Reachable(db, limit)
    ensures Inv(db, limit)
  {
    var states, actions :| Run(states, actions, limit) && states[0] == EMPTY && states[|actions|] == db;
    RunKeeps(states, actions, limit, |actions|, |actions|);
  }

  // -------------------------------------------------------- a removal misses work

  lemma InsideRoot()
    ensures Inside("/", "/a") && ValidDirectory("/") && AsDirectory("/") == "/"
  {
    assert EndsWith("/", SEPARATOR);
    assert "/"[0] !in BLANKS;
    assert "/a"[..1] == "/";
  }

  /** Removing the root there leaves a write and a newer pending write with no remove behind them. */
  lemma RemovalCanMissWork(limit: nat)
    ensures var removal := RemoveRoot("/", [Child(1, None)], ["/a"], 5);
      && Reachable(BEHIND, limit) && Enabled(BEHIND, removal)
      && !Fenced(Perform(BEHIND, removal, limit).tasks, "/a") && !RemoveCanStand(BEHIND, "/a")
  {
    BehindIsReachable(limit);
    RunsAreSound(BEHIND, limit);
    InsideRoot();
    var children := [Child(1, None)];
    assert Lists(BEHIND.files, "/", None, children) by {
      assert IsChild(BEHIND.files, "/", None, children[0]);
      assert children[0].fileId == 1;
    }
    BehindExpands();
    FileAtIs(BEHIND.files, 1);
    assert InSlot(BEHIND.tasks, 2, "/a", Pending);
    RemovalFences(BEHIND, "/", children, ["/a"], 5, limit, "/a");
  }

  lemma BehindExpands()
    ensures var expanded := ExpandAll(BEHIND, [Child(1, None)], 5);
      expanded.Committed? && expanded.db.tasks == BEHIND.tasks && Groups(expanded.db.tasks, "/", ["/a"])
  {
    var children := [Child(1, None)];
    SlotIs(BEHIND.tasks, 2);
    var first := ExpandOne(BEHIND, children[0], 5);
    assert children[1..] == [];
    assert ExpandAll(first.db, [], 5) == Committed(first.db);
    assert first.db.tasks == BEHIND.tasks;
    InsideRoot();
    assert ActiveAt(BEHIND.tasks, "/a") by {
      assert 2 in BEHIND.tasks;
    }
  }

  // ------------------------------------------------------ a removal outruns an anchor

  const MOVE_A := Event("/r/b", Relocate, Some("/a"), 0, 5, 0)
  const PREPARED := Db(map[1 := FILE_A], map[1 := Claimed(RowA(1)).(fileId := Some(1))], map[])
  const FINISHED := Db(map[1 := FILE_A], map[1 := Claimed(RowA(1)).(fileId := Some(1), state := Done)], map[])
  const MOVING := Db(
    map[1 := FILE_A.(generation := 2)],
    map[1 := Claimed(RowA(1)).(fileId := Some(1), state := Done),
        2 := Task(Some(1), "/r/b", Relocate, Some("/a"), 2, Pending, 5, 0, 0, 0, 1, [])],
    map[])

  lemma OnlyPrepare(from: Db, limit: nat)
    requires Leads(from, LEASED, limit)
    ensures Leads(from, FINISHED, limit)
  {
    assert NextRowId({}) == 1;
    assert Perform(LEASED, PrepareTask(1, FILE_A), limit) == PREPARED;
    Extend(from, LEASED, PrepareTask(1, FILE_A), limit);
    assert Perform(PREPARED, FinishTask(1, true), limit) == FINISHED;
    Extend(from, PREPARED, FinishTask(1, true), limit);
  }

  lemma MoveOut(from: Db, limit: nat)
    requires Leads(from, FINISHED, limit)
    ensures Leads(from, MOVING, limit)
  {
    FileAtIs(FINISHED.files, 1);
    assert FINISHED.tasks.Keys == {1};
    assert Perform(FINISHED, WatchEvent(MOVE_A), limit) == MOVING;
    Extend(from, FINISHED, WatchEvent(MOVE_A), limit);
  }

  lemma MovingIsReachable(limit: nat)
    ensures Reachable(MOVING, limit)
  {
    Here(EMPTY, limit);
    FirstWrite(EMPTY, limit);
    OnlyPrepare(EMPTY, limit);
    MoveOut(EMPTY, limit);
  }

  lemma MovingOutruns()
    ensures AllAnchored(MOVING) && OutrunsAt(MOVING, "/r", "/r/b") && ActiveAt(MOVING.tasks, "/r/b")
  {
    InsideR();
    assert ActiveAt(MOVING.tasks, "/r/b") by {
      assert 2 in MOVING.tasks;
    }
    NewestBounds(MOVING.tasks, "/r/b");
    assert OutrunBy(MOVING, "/r", "/r/b", 2);
  }

  lemma MovingListing()
    ensures ListsFor(MOVING, "/r", [], ["/r/b"], 5) && ValidRemoval("/r", 5)
  {
    InsideR();
    MovingOutruns();
  }

  /** A rename into a root that is then removed: its task gets ahead of the row it is anchored to. */
  lemma RemovalCanOutrun(limit: nat)
    ensures var removal := RemoveRoot("/r", [], ["/r/b"], 5);
      && Reachable(MOVING, limit) && Enabled(MOVING, removal) && AllAnchored(MOVING)
      && Outruns(MOVING, removal) && !AllAnchored(Perform(MOVING, removal, limit))
  {
    MovingIsReachable(limit);
    RunsAreSound(MOVING, limit);
    MovingOutruns();
    MovingListing();
    assert BreaksFence(MOVING, RemoveRoot("/r", [], ["/r/b"], 5), "/r/b");
    PerformKeeps(MOVING, RemoveRoot("/r", [], ["/r/b"], 5), limit);
  }

  lemma InsideR()
    ensures Inside("/r", "/r/b") && !Inside("/r", "/a") && ValidDirectory("/r")
  {
    assert !EndsWith("/r", SEPARATOR);
    assert "/r"[0] !in BLANKS;
    assert "/r/b"[..3] == "/r/";
  }

  // ---------------------------------------------------------- a removal forgets work

  const REFUNDED := Db(map[], map[1 := RowA(1).(state := RetryWait)], map[])
  const RETRIED := Db(map[], map[1 := RowA(1).(state := RetryWait), 2 := RowA(2)], map[])
  const LEASED_AGAIN := Db(map[], map[1 := RowA(1).(state := RetryWait), 2 := Claimed(RowA(2))], map[])
  const BOTH_PARKED := Db(map[], map[1 := RowA(1).(state := RetryWait), 2 := Parked(Claimed(RowA(2)))], map[])

  lemma Refund(from: Db, limit: nat)
    requires Leads(from, LEASED, limit)
    ensures Leads(from, REFUNDED, limit)
  {
    assert Perform(LEASED, RefundDispatch(1, 0), limit) == REFUNDED;
    Extend(from, LEASED, RefundDispatch(1, 0), limit);
  }

  lemma WriteAgainIs(limit: nat)
    ensures Perform(REFUNDED, WatchEvent(WRITE_A), limit) == RETRIED
  {
    assert REFUNDED.tasks.Keys == {1};
    assert EventPaths(WRITE_A) == {"/a"} && RowsAt(REFUNDED.tasks, {"/a"}) == {1};
  }

  lemma WriteAgain(from: Db, limit: nat)
    requires Leads(from, REFUNDED, limit)
    ensures Leads(from, LEASED_AGAIN, limit)
  {
    WriteAgainIs(limit);
    Extend(from, REFUNDED, WatchEvent(WRITE_A), limit);
    assert Perform(RETRIED, ClaimTasks({2}, 0, AnySource), limit) == LEASED_AGAIN;
    Extend(from, RETRIED, ClaimTasks({2}, 0, AnySource), limit);
  }

  lemma ParkAgain(from: Db, limit: nat)
    requires Leads(from, LEASED_AGAIN, limit)
    ensures Leads(from, BOTH_PARKED, limit)
  {
    assert CanPark(LEASED_AGAIN, [2]);
    assert 2 in [2];
    assert Perform(LEASED_AGAIN, ParkTasks([2]), limit) == BOTH_PARKED;
    Extend(from, LEASED_AGAIN, ParkTasks([2]), limit);
  }

  lemma ToLeasedAgain(limit: nat)
    ensures Reachable(LEASED_AGAIN, limit)
  {
    Here(EMPTY, limit);
    FirstWrite(EMPTY, limit);
    Refund(EMPTY, limit);
    WriteAgain(EMPTY, limit);
  }

  lemma BothParkedIsReachable(limit: nat)
    ensures Reachable(BOTH_PARKED, limit)
  {
    ToLeasedAgain(limit);
    ParkAgain(EMPTY, limit);
  }

  lemma BothParkedForgets()
    ensures ForgottenAt(BOTH_PARKED, "/a") && ListsFor(BOTH_PARKED, "/", [], ["/a"], 5) && ValidRemoval("/", 5)
      && Inside("/", "/a")
  {
    InsideRoot();
    assert ActiveAt(BOTH_PARKED.tasks, "/a") by {
      assert 2 in BOTH_PARKED.tasks;
    }
    assert ForgottenAt(BOTH_PARKED, "/a") by {
      assert ParkedAt(BOTH_PARKED.tasks, "/a", 2) && ParkedAt(BOTH_PARKED.tasks, "/a", 1);
    }
  }

  /** Two parked rows of one path: the removal keeps the older and forgets the newer. */
  lemma RemovalCanForget(limit: nat)
    ensures var removal := RemoveRoot("/", [], ["/a"], 5);
      && Reachable(BOTH_PARKED, limit) && Enabled(BOTH_PARKED, removal) && Forgets(BOTH_PARKED, removal)
      && !NothingLost(BOTH_PARKED.tasks, Perform(BOTH_PARKED, removal, limit).tasks)
  {
    BothParkedIsReachable(limit);
    RunsAreSound(BOTH_PARKED, limit);
    BothParkedForgets();
    assert ForgetsAt(BOTH_PARKED, RemoveRoot("/", [], ["/a"], 5), "/a");
    PerformKeeps(BOTH_PARKED, RemoveRoot("/", [], ["/a"], 5), limit);
  }
}
