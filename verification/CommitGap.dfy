/**
 * The window is real: two tasks of one generation, the second a delete, leave
 * a row the catalog shows without its document once the receipt is lost.
 */
module CommitGap {
  import opened Basics
  import opened Catalog
  import Queue
  import opened QueueGaps
  import opened QueueRuns
  import opened Projection
  import C = Commit

  ghost predicate Reaches(s: C.System, limit: nat) {
    exists states, steps :: C.Run(states, steps, limit) && states[|steps|] == s
  }

  lemma Follow(s: C.System, step: C.Step, limit: nat)
    requires Reaches(s, limit) && C.Enabled(s, step)
    ensures Reaches(C.Next(s, step, limit), limit)
  {
    var states, steps :| C.Run(states, steps, limit) && states[|steps|] == s;
    assert C.Run(states + [C.Next(s, step, limit)], steps + [step], limit);
  }

  lemma FollowCatalog(s: C.System, a: Action, after: Db, limit: nat)
    requires Reaches(s, limit) && !a.CommitReceipts? && Enabled(s.db, a) && Perform(s.db, a, limit) == after
    ensures Reaches(s.(db := after), limit)
  {
    Follow(s, C.CatalogStep(a), limit);
  }

  /** One task's mutation, read, applied and recorded on its own. */
  function One(task: nat, m: Mutation): seq<CommitRequest> {
    [CommitRequest(Some(task), m)]
  }

  lemma OneIsFinal(task: nat, m: Mutation, current: map<nat, int>)
    requires FileOf(m) in current && current[FileOf(m)] == GenerationOf(m)
    ensures Batch(One(task, m), current) == [m]
    ensures Final(One(task, m), current, FileOf(m)) == Some(m)
    ensures Receipts(One(task, m), current, 1)
      == [CommitReceipt(task, FileOf(m), GenerationOf(m), m.UpsertDocument?, false)]
  {
    assert LastFresh(One(task, m), current, FileOf(m), 1) == Some(0);
    assert IsFinal(One(task, m), current, 0);
    assert Collapsed(One(task, m), current, 0) == [];
    assert Collapsed(One(task, m), current, 1) == Collapsed(One(task, m), current, 0) + [m];
    assert Receipts(One(task, m), current, 1) == Receipts(One(task, m), current, 0) + ReceiptFor(One(task, m)[0],
      current);
  }

  /** Reading and committing one mutation of file 1. */
  lemma FollowApply(s: C.System, task: nat, m: Mutation, limit: nat) returns (after: C.System)
    requires Reaches(s, limit) && s.phase.Idle? && s.db.files.Keys == {1} && FileOf(m) == 1
      && s.db.files[1].generation == GenerationOf(m)
    ensures Reaches(after, limit) && after.db == s.db
    ensures after.phase == C.Applied(One(task, m), map[1 := GenerationOf(m)])
    ensures after.docs == ApplyNative(s.docs, [m])
  {
    var requests := One(task, m);
    var current: map<nat, int> := map[1 := GenerationOf(m)];
    assert C.Generations(s.db.files, requests) == current by {
      assert requests[0] in requests;
    }
    OneIsFinal(task, m, current);
    Follow(s, C.ReadGenerations(requests), limit);
    var read := s.(phase := C.HasRead(requests, current));
    Follow(read, C.ApplyBatch(Landed), limit);
    after := C.Next(read, C.ApplyBatch(Landed), limit);
  }

  lemma CompletesOne(db: Db, item: Queue.Receipt, after: Db)
    requires Queue.CompleteOne(db, item) == Committed(after)
    ensures Queue.CompleteBatch(db, [item]) == Committed(after)
  {
    assert [item][1..] == [];
  }

  /** Committing and recording one upsert of file 1. */
  lemma FollowUpsert(s: C.System, task: nat, d: Document, after: Db, limit: nat) returns (t: C.System)
    requires Reaches(s, limit) && s.phase.Idle? && s.db.files.Keys == {1} && d.fileId == 1
      && s.db.files[1].generation == d.generation
    requires Queue.CompleteOne(s.db, Queue.Receipt(task, 1, d.generation, false, Indexed, Some(0))) == Committed(after)
    ensures Reaches(t, limit) && t.db == after && t.phase.Idle?
  {
    var m := UpsertDocument(d);
    var applied := FollowApply(s, task, m, limit);
    OneIsFinal(task, m, applied.phase.current);
    var items := C.Items(C.ReceiptsOf(applied.phase), 0);
    assert items == [Queue.Receipt(task, 1, d.generation, false, Indexed, Some(0))];
    CompletesOne(s.db, items[0], after);
    Follow(applied, C.Record(0), limit);
    t := C.Next(applied, C.Record(0), limit);
  }

  // --------------------------------------------------------------- the scenario

  const SHOWN1 := FILE_A.(status := Indexed, indexedAt := Some(0))
  const BUMPED := FILE_A.(generation := 2, indexedAt := Some(0))
  const OBSERVED2 := FILE_A.(generation := 2)
  const SHOWN2 := FILE_A.(generation := 2, status := Indexed, indexedAt := Some(0))
  const FINISHED1 := Queue.Claimed(RowA(1)).(fileId := Some(1), state := Done)
  const FINISHED2 := Queue.Claimed(RowA(2)).(fileId := Some(1), state := Done)
  const THIRD := RowA(2).(fileId := Some(1), op := Remove)

  const AFTER_FIRST := Db(map[1 := SHOWN1], map[1 := FINISHED1, 2 := RowA(2)], map[])
  const SECOND_CLAIMED := Db(map[1 := SHOWN1], map[1 := FINISHED1, 2 := Queue.Claimed(RowA(2))], map[])
  const THIRD_QUEUED := Db(map[1 := BUMPED], map[1 := FINISHED1, 2 := Queue.Claimed(RowA(2)), 3 := THIRD], map[])
  const SECOND_PREPARED :=
    Db(map[1 := OBSERVED2], map[1 := FINISHED1, 2 := Queue.Claimed(RowA(2)).(fileId := Some(1)), 3 := THIRD], map[])
  const AFTER_SECOND := Db(map[1 := SHOWN2], map[2 := FINISHED2, 3 := THIRD], map[])
  const THIRD_CLAIMED := Db(map[1 := SHOWN2], map[2 := FINISHED2, 3 := Queue.Claimed(THIRD)], map[])

  lemma FirstCompletes()
    ensures Queue.CompleteOne(PreparedBefore(2),
      Queue.Receipt(1, 1, 1, false, Indexed, Some(0))) == Committed(AFTER_FIRST)
  {
    assert AFTER_FIRST.dead == map[];
  }

  lemma SecondIsClaimed(limit: nat)
    ensures Enabled(AFTER_FIRST, ClaimTasks({2}, 0, Queue.AnySource))
    ensures Perform(AFTER_FIRST, ClaimTasks({2}, 0, Queue.AnySource), limit) == SECOND_CLAIMED
  {
  }

  lemma DeleteIsQueued(limit: nat)
    ensures Perform(SECOND_CLAIMED, WatchEvent(REMOVE_A), limit) == THIRD_QUEUED
  {
    FileAtIs(SECOND_CLAIMED.files, 1);
    assert SECOND_CLAIMED.tasks.Keys == {1, 2};
  }

  lemma SecondIsPrepared(limit: nat)
    ensures Perform(THIRD_QUEUED, PrepareTask(2, OBSERVED2), limit) == SECOND_PREPARED
  {
    FileAtIs(THIRD_QUEUED.files, 1);
  }

  lemma SecondCompletes()
    ensures Queue.CompleteOne(SECOND_PREPARED,
      Queue.Receipt(2, 1, 2, false, Indexed, Some(0))) == Committed(AFTER_SECOND)
  {
  }

  lemma ThirdIsClaimed(limit: nat)
    ensures Enabled(AFTER_SECOND, ClaimTasks({3}, 0, Queue.AnySource))
    ensures Perform(AFTER_SECOND, ClaimTasks({3}, 0, Queue.AnySource), limit) == THIRD_CLAIMED
  {
  }

  lemma ReachPrepared(limit: nat)
    ensures Reaches(C.System(PreparedBefore(2), [], C.Idle, map[]), limit)
  {
    assert C.Run([C.START], [], limit);
    FirstWriteIs(limit);
    SecondWriteIs(limit);
    FirstPrepareIs(2, limit);
    var s := C.START;
    FollowCatalog(s, WatchEvent(WRITE_A), QUEUED, limit);
    FollowCatalog(s.(db := QUEUED), ClaimTasks({1}, 0, Queue.AnySource), LEASED, limit);
    FollowCatalog(s.(db := LEASED), WatchEvent(WRITE_A), LeasedBefore(2), limit);
    FollowCatalog(s.(db := LeasedBefore(2)), PrepareTask(1, FILE_A), PreparedBefore(2), limit);
  }

  /** A crash now loses the receipt of an applied delete, and the index no longer agrees. */
  ghost predicate LosesDelete(s: C.System, limit: nat) {
    C.Enabled(s, C.Crash) && C.Abandons(s, C.Crash) && !C.TextAgrees(C.Next(s, C.Crash, limit))
  }

  lemma ReachSecond(limit: nat) returns (second: C.System)
    ensures Reaches(second, limit) && second.db == AFTER_SECOND && second.phase.Idle?
  {
    ReachPrepared(limit);
    FirstCompletes();
    var first := FollowUpsert(C.System(PreparedBefore(2), [], C.Idle, map[]), 1, Document(1, 1, 0), AFTER_FIRST, limit);
    SecondIsClaimed(limit);
    FollowCatalog(first, ClaimTasks({2}, 0, Queue.AnySource), SECOND_CLAIMED, limit);
    DeleteIsQueued(limit);
    FollowCatalog(first.(db := SECOND_CLAIMED), WatchEvent(REMOVE_A), THIRD_QUEUED, limit);
    SecondIsPrepared(limit);
    FollowCatalog(first.(db := THIRD_QUEUED), PrepareTask(2, OBSERVED2), SECOND_PREPARED, limit);
    SecondCompletes();
    second := FollowUpsert(first.(db := SECOND_PREPARED), 2, Document(1, 2, 0), AFTER_SECOND, limit);
  }

  /** A crash after the third task's delete leaves a shown row without a document. */
  lemma AbandonedDeleteIsReachable(limit: nat)
    ensures exists s :: Reaches(s, limit) && LosesDelete(s, limit)
  {
    var second := ReachSecond(limit);
    ThirdIsClaimed(limit);
    FollowCatalog(second, ClaimTasks({3}, 0, Queue.AnySource), THIRD_CLAIMED, limit);
    var third := FollowApply(second.(db := THIRD_CLAIMED), 3, DeleteDocument(1, 2), limit);
    DeleteHides(second.docs, third, limit);
  }

  lemma DeleteHides(before: seq<Document>, s: C.System, limit: nat)
    requires s.db == THIRD_CLAIMED && s.phase == C.Applied(One(3, DeleteDocument(1, 2)), map[1 := 2])
    requires s.docs == ApplyNative(before, [DeleteDocument(1, 2)])
    ensures C.Abandons(s, C.Crash) && !C.TextAgrees(C.Next(s, C.Crash, limit))
  {
    OneIsFinal(3, DeleteDocument(1, 2), map[1 := 2]);
    assert C.AbandonsAt(s, C.Crash, 1);
    ApplyOne(before, DeleteDocument(1, 2), 1);
    assert !C.AgreesAt(s.(phase := C.Idle), 1);
  }
}
