/** Bulk transitions: releasing parked rows and recovering a crash. */
module QueueRecovery {
  import opened Basics
  import opened Catalog
  import opened Queue
  import opened QueueInvariant
  import opened QueueLeases

  /** Distinct rows of one state: under the slot rule they have distinct paths. */
  ghost predicate Candidates(tasks: map<nat, Task>, ids: seq<nat>, state: TaskState) {
    NoDuplicates(ids) && forall i :: i in ids ==> i in tasks && tasks[i].state == state
  }

  /** A step confined to the first candidate's path leaves the rest candidates. */
  lemma RestAreCandidates(before: map<nat, Task>, after: map<nat, Task>, ids: seq<nat>, state: TaskState)
    requires ids != [] && Candidates(before, ids, state) && UniqueSlots(before)
    requires OnlyAt(before, after, before[ids[0]].path)
    ensures Candidates(after, ids[1..], state)
    ensures forall i :: i in ids[1..] ==> i in after && before[i].path != before[ids[0]].path && after[i] == before[i]
  {
    forall i | i in ids[1..]
      ensures i in after && before[i].path != before[ids[0]].path && after[i] == before[i]
    {
      assert before[i].path != before[ids[0]].path;
    }
  }

  // ------------------------------------------------------------------- release

  lemma ReleasedOk(t: Task, limit: nat)
    requires RowOk(t, limit) && (t.state.RetryWait? || t.state.WaitingDep?)
    ensures RowOk(t.(state := Pending, dueAt := 0), limit)
  {
  }

  lemma AbsorbOk(pending: Task, t: Task, limit: nat)
    requires RowOk(t, limit) && (t.state.RetryWait? || t.state.WaitingDep?) && RowOk(pending, limit)
      && pending.state.Pending?
    ensures RowOk(Absorb(pending, t), limit)
  {
  }

  lemma DropKeepsInv(db: Db, id: nat, limit: nat)
    requires Inv(db, limit)
    ensures Inv(db.(tasks := db.tasks - {id}), limit)
  {
  }

  lemma ReleaseOneShape(db: Db, id: nat)
    requires id in db.tasks
    ensures OnlyAt(db.tasks, ReleaseOne(db, id).tasks, db.tasks[id].path)
  {
    var slot := Slot(db.tasks, db.tasks[id].path, Pending);
    assert slot.Some? ==> InSlot(db.tasks, slot.value, db.tasks[id].path, Pending);
  }

  lemma ReleaseOneLosesNothing(db: Db, id: nat)
    requires id in db.tasks && !db.tasks[id].state.Pending?
    ensures NothingLost(db.tasks, ReleaseOne(db, id).tasks)
  {
    var t := db.tasks[id];
    var after := ReleaseOne(db, id).tasks;
    var slot := Slot(db.tasks, t.path, Pending);
    assert slot.Some? ==> InSlot(db.tasks, slot.value, t.path, Pending);
    forall i | i in db.tasks && !db.tasks[i].state.Done?
      ensures Survives(db.tasks[i], after)
    {
      var j := if i != id then i else if slot.Some? then slot.value else id;
      assert j in after && after[j].path == db.tasks[i].path && after[j].generation >= db.tasks[i].generation;
    }
  }

  lemma ReleaseOneGone(db: Db, id: nat)
    requires id in db.tasks && !db.tasks[id].state.Pending?
    ensures id in ReleaseOne(db, id).tasks ==> ReleaseOne(db, id).tasks[id].state.Pending?
  {
    var slot := Slot(db.tasks, db.tasks[id].path, Pending);
    assert slot.Some? ==> InSlot(db.tasks, slot.value, db.tasks[id].path, Pending);
  }

  lemma ReleaseOneKeeps(db: Db, id: nat, limit: nat)
    requires Inv(db, limit) && id in db.tasks && (db.tasks[id].state.RetryWait? || db.tasks[id].state.WaitingDep?)
    ensures Kept(db, ReleaseOne(db, id), limit)
  {
    var t := db.tasks[id];
    ReleaseOneLosesNothing(db, id);
    match Slot(db.tasks, t.path, Pending)
    case None =>
      ReleasedOk(t, limit);
      SetRowKeeps(db, id, t.(state := Pending, dueAt := 0), limit) by {
        forall j | InSlot(db.tasks, j, t.path, Pending)
          ensures Slot(db.tasks, t.path, Pending).Some?
        {
        }
      }
    case Some(p) =>
      assert InSlot(db.tasks, p, t.path, Pending);
      DropKeepsInv(db, id, limit);
      AbsorbOk(db.tasks[p], t, limit);
      SetRowKeeps(db.(tasks := db.tasks - {id}), p, Absorb(db.tasks[p], t), limit);
  }

  lemma ReleaseUntouched(db: Db, ids: seq<nat>, state: TaskState, p: Path)
    requires UniqueSlots(db.tasks) && Candidates(db.tasks, ids, state) && (state.RetryWait? || state.WaitingDep?)
    requires forall i :: i in ids ==> db.tasks[i].path != p
    ensures UntouchedAt(db.tasks, ReleaseAll(db, ids).tasks, p)
    decreases |ids|
  {
    if ids != [] {
      ReleaseOneShape(db, ids[0]);
      var mid := ReleaseOne(db, ids[0]);
      RestAreCandidates(db.tasks, mid.tasks, ids, state);
      ReleaseOneUnique(db, ids[0]);
      ReleaseUntouched(mid, ids[1..], state, p);
      assert UntouchedAt(db.tasks, mid.tasks, p);
    }
  }

  lemma ReleaseOneUnique(db: Db, id: nat)
    requires UniqueSlots(db.tasks) && id in db.tasks
    ensures UniqueSlots(ReleaseOne(db, id).tasks)
  {
    var t := db.tasks[id];
    var after := ReleaseOne(db, id).tasks;
    var slot := Slot(db.tasks, t.path, Pending);
    assert slot.Some? ==> InSlot(db.tasks, slot.value, t.path, Pending);
    forall i, j | i in after && j in after && after[i].path == after[j].path && after[i].state == after[j].state
      ensures i == j
    {
      assert i != id ==> InSlot(db.tasks, i, after[i].path, after[i].state);
      assert j != id ==> InSlot(db.tasks, j, after[j].path, after[j].state);
    }
  }

  /** Releasing any batch of parked rows keeps the invariant and loses no work. */
  lemma {:induction false} ReleaseKeeps(db: Db, ids: seq<nat>, state: TaskState, limit: nat)
    requires Inv(db, limit) && Candidates(db.tasks, ids, state) && (state.RetryWait? || state.WaitingDep?)
    ensures Kept(db, ReleaseAll(db, ids), limit)
    decreases |ids|
  {
    if ids == [] {
      RowsStaySurvive(db.tasks, db.tasks);
    } else {
      var mid := ReleaseOne(db, ids[0]);
      ReleaseOneShape(db, ids[0]);
      ReleaseOneKeeps(db, ids[0], limit);
      RestAreCandidates(db.tasks, mid.tasks, ids, state);
      ReleaseKeeps(mid, ids[1..], state, limit);
      ReleaseUntouched(mid, ids[1..], state, db.tasks[ids[0]].path);
      NothingLostChain(db.tasks, mid.tasks, ReleaseAll(db, ids).tasks, db.tasks[ids[0]].path);
    }
  }

  /** A released row is pending or absorbed; none is left parked. */
  lemma {:induction false} ReleaseUnparks(db: Db, ids: seq<nat>, state: TaskState, id: nat)
    requires UniqueSlots(db.tasks) && Candidates(db.tasks, ids, state) && (state.RetryWait? || state.WaitingDep?)
    requires id in ReleaseAll(db, ids).tasks && ReleaseAll(db, ids).tasks[id].state == state
    ensures id !in ids && id in db.tasks && db.tasks[id].state == state
    decreases |ids|
  {
    if ids != [] {
      var mid := ReleaseOne(db, ids[0]);
      ReleaseOneShape(db, ids[0]);
      ReleaseOneGone(db, ids[0]);
      ReleaseOneUnique(db, ids[0]);
      RestAreCandidates(db.tasks, mid.tasks, ids, state);
      ReleaseUnparks(mid, ids[1..], state, id);
      ReleaseOneParksNone(db, ids[0], id);
    }
  }

  lemma ReleaseOneParksNone(db: Db, id: nat, i: nat)
    requires id in db.tasks && i in ReleaseOne(db, id).tasks && !ReleaseOne(db, id).tasks[i].state.Pending?
    ensures i in db.tasks && db.tasks[i].state == ReleaseOne(db, id).tasks[i].state
  {
    var slot := Slot(db.tasks, db.tasks[id].path, Pending);
    assert slot.Some? ==> InSlot(db.tasks, slot.value, db.tasks[id].path, Pending);
  }

  // ------------------------------------------------------------ crash recovery

  lemma CrashedOk(t: Task, limit: nat)
    requires RowOk(t, limit) && t.state.InFlight?
    ensures RowOk(Crashed(t), limit)
  {
    Logged(t.log, ProcessCrash(t.charge));
  }

  lemma RecoverOneShape(r: Recovery, id: nat)
    requires id in r.db.tasks && r.db.tasks[id].state.InFlight?
    ensures OnlyAt(r.db.tasks, RecoverOne(r, id).db.tasks, r.db.tasks[id].path)
    ensures var after := RecoverOne(r, id);
      after.requeued + after.poisoned + after.superseded == r.requeued + r.poisoned + r.superseded + 1
  {
    var t := r.db.tasks[id];
    if !NewerOccupant(r.db.tasks, id, t, CrashTarget(t)) {
      var moved := r.db.(tasks := Place(r.db.tasks, id, Crashed(t)));
      PlaceOnlyAt(r.db.tasks, id, Crashed(t));
      RecordDeathShape(moved, id);
      OnlyAtChain(r.db.tasks, moved.tasks, RecordDeath(moved, id).tasks, t.path);
    }
  }

  lemma OnlyAtChain(a: map<nat, Task>, b: map<nat, Task>, c: map<nat, Task>, p: Path)
    requires OnlyAt(a, b, p) && OnlyAt(b, c, p)
    ensures OnlyAt(a, c, p)
  {
  }

  lemma RecoverOneLands(r: Recovery, id: nat, i: nat)
    requires id in r.db.tasks && r.db.tasks[id].state.InFlight?
    requires i in RecoverOne(r, id).db.tasks && RecoverOne(r, id).db.tasks[i].state.InFlight?
    ensures i != id && i in r.db.tasks && r.db.tasks[i].state.InFlight?
  {
    var t := r.db.tasks[id];
    var moved := r.db.(tasks := Place(r.db.tasks, id, Crashed(t)));
    RecordDeathShape(moved, id);
  }

  lemma RecoverOneKeeps(r: Recovery, id: nat, limit: nat)
    requires Inv(r.db, limit) && id in r.db.tasks && r.db.tasks[id].state.InFlight?
    ensures Kept(r.db, RecoverOne(r, id).db, limit)
  {
    var t := r.db.tasks[id];
    if NewerOccupant(r.db.tasks, id, t, CrashTarget(t)) {
      DropKeepsInv(r.db, id, limit);
      var j :| j in r.db.tasks && j != id && r.db.tasks[j].path == t.path && r.db.tasks[j].generation > t.generation;
      var after := r.db.tasks - {id};
      forall i | i in r.db.tasks && !r.db.tasks[i].state.Done?
        ensures Survives(r.db.tasks[i], after)
      {
        var k := if i == id then j else i;
        assert k in after && after[k].path == r.db.tasks[i].path && after[k].generation >= r.db.tasks[i].generation;
      }
    } else {
      CrashedOk(t, limit);
      PlaceKeeps(r.db, id, Crashed(t), limit);
      if CrashTarget(t).Dead? {
        DeathAfterMove(r.db, r.db.(tasks := Place(r.db.tasks, id, Crashed(t))), id, limit);
      }
    }
  }

  lemma RecoverUntouched(r: Recovery, ids: seq<nat>, p: Path, limit: nat)
    requires Inv(r.db, limit) && Candidates(r.db.tasks, ids, InFlight)
    requires forall i :: i in ids ==> r.db.tasks[i].path != p
    ensures UntouchedAt(r.db.tasks, RecoverAll(r, ids).db.tasks, p)
    decreases |ids|
  {
    if ids != [] {
      RecoverOneShape(r, ids[0]);
      RecoverOneKeeps(r, ids[0], limit);
      var mid := RecoverOne(r, ids[0]);
      RestAreCandidates(r.db.tasks, mid.db.tasks, ids, InFlight);
      RecoverUntouched(mid, ids[1..], p, limit);
      assert UntouchedAt(r.db.tasks, mid.db.tasks, p);
    }
  }

  /** Crash recovery keeps the invariant, loses no work and counts each row once. */
  lemma {:induction false} RecoverKeeps(r: Recovery, ids: seq<nat>, limit: nat)
    requires Inv(r.db, limit) && Candidates(r.db.tasks, ids, InFlight)
    ensures Kept(r.db, RecoverAll(r, ids).db, limit)
    ensures var after := RecoverAll(r, ids);
      after.requeued + after.poisoned + after.superseded == r.requeued + r.poisoned + r.superseded + |ids|
    decreases |ids|
  {
    if ids == [] {
      RowsStaySurvive(r.db.tasks, r.db.tasks);
    } else {
      var mid := RecoverOne(r, ids[0]);
      RecoverOneShape(r, ids[0]);
      RecoverOneKeeps(r, ids[0], limit);
      RestAreCandidates(r.db.tasks, mid.db.tasks, ids, InFlight);
      RecoverKeeps(mid, ids[1..], limit);
      RecoverUntouched(mid, ids[1..], r.db.tasks[ids[0]].path, limit);
      NothingLostChain(r.db.tasks, mid.db.tasks, RecoverAll(r, ids).db.tasks, r.db.tasks[ids[0]].path);
    }
  }

  /** No recovered row is left in flight. */
  lemma {:induction false} RecoverLands(r: Recovery, ids: seq<nat>, limit: nat, id: nat)
    requires Inv(r.db, limit) && Candidates(r.db.tasks, ids, InFlight)
    requires id in RecoverAll(r, ids).db.tasks && RecoverAll(r, ids).db.tasks[id].state.InFlight?
    ensures id !in ids && id in r.db.tasks && r.db.tasks[id].state.InFlight?
    decreases |ids|
  {
    if ids != [] {
      var mid := RecoverOne(r, ids[0]);
      RecoverOneShape(r, ids[0]);
      RecoverOneKeeps(r, ids[0], limit);
      RestAreCandidates(r.db.tasks, mid.db.tasks, ids, InFlight);
      RecoverLands(mid, ids[1..], limit, id);
      RecoverOneLands(r, ids[0], id);
    }
  }

  /** After a whole recovery nothing is in flight and the counts add up. */
  lemma RecoveryEmptiesFlight(db: Db, ids: seq<nat>, limit: nat)
    requires Inv(db, limit) && Candidates(db.tasks, ids, InFlight)
    requires forall i :: i in db.tasks && db.tasks[i].state.InFlight? ==> i in ids
    ensures var after := RecoverAll(Recovery(db, 0, 0, 0), ids);
      && (forall i :: i in after.db.tasks ==> !after.db.tasks[i].state.InFlight?)
      && after.requeued + after.poisoned + after.superseded == |ids|
  {
    var r := Recovery(db, 0, 0, 0);
    RecoverKeeps(r, ids, limit);
    forall i | i in RecoverAll(r, ids).db.tasks
      ensures !RecoverAll(r, ids).db.tasks[i].state.InFlight?
    {
      if RecoverAll(r, ids).db.tasks[i].state.InFlight? {
        RecoverLands(r, ids, limit, i);
      }
    }
  }
}
