/**
 * The embed controller: parked tasks, the breaker and the drain, interleaved
 * with every store transaction. No parked task is stranded.
 */
module Controller {
  import opened Basics
  import opened Catalog
  import opened Queue
  import opened QueueLeases
  import opened QueueRecovery
  import opened QueueFence
  import opened QueueRemoval
  import opened QueueRuns
  import B = Breaker
  import S = Store

  // ------------------------------------------------- only parking makes rows wait

  predicate Waiting(tasks: map<nat, Task>, r: nat) {
    r in tasks && tasks[r].state.WaitingDep?
  }

  ghost predicate ParksNothing(before: map<nat, Task>, after: map<nat, Task>) {
    forall r :: Waiting(after, r) ==> Waiting(before, r)
  }

  lemma EnqueueParksNothing(db: Db, e: Request)
    ensures ParksNothing(db.tasks, After(db, Enqueue(db, e)).tasks)
  {
    var slot := Slot(db.tasks, e.path, Pending);
    assert slot.Some? ==> InSlot(db.tasks, slot.value, e.path, Pending);
  }

  lemma MarkDoneParksNothing(db: Db, id: nat, clear: bool)
    ensures ParksNothing(db.tasks, After(db, MarkDone(db, id, clear)).tasks)
  {
  }

  lemma {:induction false} CompleteParksNothing(db: Db, items: seq<Receipt>)
    ensures CompleteBatch(db, items).Committed? ==> ParksNothing(db.tasks, CompleteBatch(db, items).db.tasks)
    decreases |items|
  {
    if items != [] && CompleteOne(db, items[0]).Committed? {
      CompleteOneShape(db, items[0]);
      CompleteParksNothing(CompleteOne(db, items[0]).db, items[1..]);
    }
  }

  lemma RecordDeathParksNothing(db: Db, id: nat)
    requires id in db.tasks
    ensures ParksNothing(db.tasks, RecordDeath(db, id).tasks)
  {
    RecordDeathShape(db, id);
  }

  lemma RecoverOneParksNothing(r: Recovery, id: nat)
    requires id in r.db.tasks
    ensures ParksNothing(r.db.tasks, RecoverOne(r, id).db.tasks)
  {
    var moved := r.db.(tasks := Place(r.db.tasks, id, Crashed(r.db.tasks[id])));
    RecordDeathParksNothing(moved, id);
  }

  lemma {:induction false} RecoverParksNothing(r: Recovery, ids: seq<nat>)
    ensures ParksNothing(r.db.tasks, RecoverAll(r, ids).db.tasks)
    decreases |ids|
  {
    if ids != [] && ids[0] in r.db.tasks {
      RecoverOneParksNothing(r, ids[0]);
      RecoverParksNothing(RecoverOne(r, ids[0]), ids[1..]);
    }
  }

  lemma ReleaseOneParksNothing(db: Db, id: nat)
    requires id in db.tasks
    ensures ParksNothing(db.tasks, ReleaseOne(db, id).tasks)
  {
    forall r | Waiting(ReleaseOne(db, id).tasks, r)
      ensures Waiting(db.tasks, r)
    {
      ReleaseOneParksNone(db, id, r);
    }
  }

  lemma {:induction false} ReleaseParksNothing(db: Db, ids: seq<nat>)
    ensures ParksNothing(db.tasks, ReleaseAll(db, ids).tasks)
    decreases |ids|
  {
    if ids != [] && ids[0] in db.tasks {
      ReleaseOneParksNothing(db, ids[0]);
      ReleaseParksNothing(ReleaseOne(db, ids[0]), ids[1..]);
    }
  }

  lemma {:induction false} ExpandParksNothing(db: Db, children: seq<Child>, priority: int)
    ensures ExpandAll(db, children, priority).Committed? ==>
      ParksNothing(db.tasks, ExpandAll(db, children, priority).db.tasks)
    decreases |children|
  {
    if children != [] && ExpandOne(db, children[0], priority).Committed? {
      EnqueueParksNothing(Bump(db, children[0].fileId), ChildRequest(db, children[0], priority));
      ExpandParksNothing(ExpandOne(db, children[0], priority).db, children[1..], priority);
    }
  }

  lemma ExpandDirectoryParksNothing(db: Db, id: nat, children: seq<Child>)
    ensures ParksNothing(db.tasks, After(db, ExpandDirectory(db, id, children)).tasks)
  {
    if ExpandDirectory(db, id, children).Committed? {
      ExpandParksNothing(db, children, db.tasks[id].priority);
      MarkDoneParksNothing(ExpandAll(db, children, db.tasks[id].priority).db, id, true);
    }
  }

  lemma RedriveOneParksNothing(db: Db, f: nat, priority: int)
    ensures RedriveOne(db, f, priority).Committed? ==> ParksNothing(db.tasks, RedriveOne(db, f, priority).db.tasks)
  {
    if f in db.dead && f in db.files {
      EnqueueParksNothing(db, Request(Some(f), db.dead[f].path, Upsert, None, db.files[f].generation, priority, 0));
    }
  }

  lemma {:induction false} RedriveParksNothing(db: Db, ids: seq<nat>, priority: int)
    ensures RedriveAll(db, ids, priority).Committed? ==> ParksNothing(db.tasks, RedriveAll(db, ids, priority).db.tasks)
    decreases |ids|
  {
    if ids != [] && RedriveOne(db, ids[0], priority).Committed? {
      RedriveOneParksNothing(db, ids[0], priority);
      RedriveParksNothing(RedriveOne(db, ids[0], priority).db, ids[1..], priority);
    }
  }

  lemma {:induction false} UpgradeParksNothing(db: Db, ids: seq<nat>, model: string, priority: int)
    ensures UpgradeAll(db, ids, model, priority).Committed? ==>
      ParksNothing(db.tasks, UpgradeAll(db, ids, model, priority).db.tasks)
    decreases |ids|
  {
    if ids != [] && UpgradeOne(db, ids[0], model, priority).Committed? {
      var f := ids[0];
      if f in db.files && UpgradeCandidate(db.files[f], model) {
        EnqueueParksNothing(db.(files := db.files[f := UpgradedFile(db.files[f])]),
          UpgradeRequest(db.files[f], f, priority));
      }
      UpgradeParksNothing(UpgradeOne(db, f, model, priority).db, ids[1..], model, priority);
    }
  }

  lemma HandleFailureParksNothing(db: Db, id: nat, transient: bool, dueAt: int, limit: nat)
    ensures ParksNothing(db.tasks, After(db, HandleFailure(db, id, transient, dueAt, limit)).tasks)
  {
    if id in db.tasks {
      RecordDeathParksNothing(db.(tasks := Place(db.tasks, id, Died(db.tasks[id]))), id);
    }
  }

  lemma EventParksNothing(db: Db, e: Event)
    ensures ParksNothing(db.tasks, After(db, EnqueueEvent(db, e)).tasks)
  {
    var a := Allocate(db, e);
    if a.Allocated? {
      assert a.db.tasks == db.tasks;
      EnqueueParksNothing(a.db, a.request);
    }
  }

  lemma ReconcileParksNothing(db: Db, o: Observation)
    ensures Reconcile(db, o).ScanEnqueued? ==> ParksNothing(db.tasks, Reconcile(db, o).db.tasks)
  {
    if Reconcile(db, o).ScanEnqueued? {
      EnqueueParksNothing(if o.seen.Some? then Bump(db, o.seen.value.fileId) else db, ScanRequest(db, o));
    }
  }

  lemma BackfillParksNothing(db: Db, f: nat, generation: int, priority: int)
    ensures ParksNothing(db.tasks, After(db, Backfill(db, f, generation, priority)).tasks)
  {
    if f in db.files {
      var file := db.files[f].(generation := generation + 1, status := PendingFile, indexedAt := None);
      EnqueueParksNothing(db.(files := db.files[f := file]),
        Request(Some(f), file.path, Upsert, None, generation + 1, priority, 0));
    }
  }

  lemma FenceParksNothing(db: Db, p: string, priority: int)
    requires UniqueSlots(db.tasks)
    ensures ParksNothing(db.tasks, After(db, FencePath(db, p, priority)).tasks)
  {
    FenceIs(db, p, priority);
    EnqueueParksNothing(RetiredDb(db, p), Removal(p, NewestActive(db.tasks, p) + 1, priority));
  }

  lemma {:induction false} FencesParkNothing(db: Db, paths: seq<string>, priority: int)
    requires UniqueSlots(db.tasks) && FenceAll(db, paths, priority).Committed?
    ensures ParksNothing(db.tasks, FenceAll(db, paths, priority).db.tasks)
    decreases |paths|
  {
    if paths != [] {
      FenceParksNothing(db, paths[0], priority);
      FenceUntouched(db, paths[0], priority, paths[0]);
      FencesParkNothing(FencePath(db, paths[0], priority).db, paths[1..], priority);
    }
  }

  lemma RemovalParksNothing(db: Db, prefix: string, children: seq<Child>, paths: seq<string>, priority: int, limit: nat)
    requires Inv(db, limit)
    ensures ParksNothing(db.tasks, After(db, RemovePrefix(db, prefix, children, paths, priority)).tasks)
  {
    if RemovePrefix(db, prefix, children, paths, priority).Committed? {
      ExpandParksNothing(db, children, priority);
      ExpandedSlots(db, children, priority, limit);
      FencesParkNothing(Expanded(db, children, priority), paths, priority);
    }
  }

  predicate MovesOneRow(a: Action) {
    a.ClaimTasks? || a.PrepareTask? || a.MoveFile? || a.FinishTask? || a.RetireTask? || a.RefundDispatch?
      || a.FailLease?
    || a.SetVectorModel? || a.ArchiveLetter?
  }

  lemma LeasesParkNothing(db: Db, a: Action, limit: nat)
    requires MovesOneRow(a)
    ensures ParksNothing(db.tasks, Perform(db, a, limit).tasks)
  {
    if a.FailLease? {
      HandleFailureParksNothing(db, a.task, a.transient, a.dueAt, limit);
    }
  }

  /** Only the parking transaction makes a row wait. */
  lemma OnlyParkingParks(db: Db, a: Action, limit: nat)
    requires Inv(db, limit) && Enabled(db, a) && !a.ParkTasks?
    ensures ParksNothing(db.tasks, Perform(db, a, limit).tasks)
  {
    if MovesOneRow(a) {
      LeasesParkNothing(db, a, limit);
    } else {
      match a
      case WatchEvent(e) => EventParksNothing(db, e);
      case ScannerDiff(o) => ReconcileParksNothing(db, o);
      case CommitReceipts(items) => CompleteParksNothing(db, items);
      case ReleaseTasks(ids, state) => ReleaseParksNothing(db, ids);
      case RecoverCrash(ids) => RecoverParksNothing(Recovery(db, 0, 0, 0), ids);
      case ExpandTask(id, children) => ExpandDirectoryParksNothing(db, id, children);
      case RedriveFiles(ids, priority) => RedriveParksNothing(db, ids, priority);
      case UpgradeModel(ids, model, priority) => UpgradeParksNothing(db, ids, model, priority);
      case BackfillFile(f, generation, priority) => BackfillParksNothing(db, f, generation, priority);
      case RemoveRoot(prefix, children, paths, priority) => RemovalParksNothing(db, prefix, children, paths, priority,
        limit);
    }
  }

  // -------------------------------------------------------------- the protocol

  /** Where a goroutine is between two atomic steps; an absent one is elsewhere. */
  datatype Phase = Wrote(ids: seq<nat>) | MustRequest

  /** Who holds drainMu: nobody, a drain between batches, or one whose last batch came up short. */
  datatype Holder = Free | Draining | Finishing

  datatype Node = Node(db: Db, circuit: B.Circuit, drainPending: bool, holder: Holder, actors: map<nat, Phase>)

  datatype Step =
    | StoreStep(action: Action)
    | Park(actor: nat, ids: seq<nat>)
    | CheckState(actor: nat, now: int)
    | RequestDrain(actor: nat)
    | Allow(now: int)
    | FinishPermit(actor: nat, epoch: nat, probe: bool, result: B.Completion, now: int)
    | StartDrain
    | DrainBatch(ids: seq<nat>)
    | FinishDrain
    | FailDrain
    | ReleaseProbe(epoch: nat, now: int, ids: seq<nat>)
    | Restart

  /** One ReleaseWaitingDep call: a full batch, or every waiting row. */
  ghost predicate IsBatch(db: Db, ids: seq<nat>, batch: nat) {
    && Candidates(db.tasks, ids, WaitingDep) && |ids| <= batch
    && (|ids| < batch ==> forall r :: Waiting(db.tasks, r) ==> r in ids)
  }

  ghost predicate CanStep(n: Node, step: Step, batch: nat) {
    match step
    case StoreStep(action) => !action.ParkTasks? && Enabled(n.db, action)
    case Park(actor, ids) => actor !in n.actors && CanPark(n.db, ids)
    case CheckState(actor, _) => actor in n.actors && n.actors[actor].Wrote?
    case RequestDrain(actor) => actor in n.actors && n.actors[actor].MustRequest? && n.holder.Free?
    case Allow(_) => true
    case FinishPermit(actor, _, _, _, _) => actor !in n.actors
    case StartDrain => n.holder.Free? && n.drainPending
    case DrainBatch(ids) => n.holder.Draining? && IsBatch(n.db, ids, batch)
    case FinishDrain => n.holder.Finishing?
    case FailDrain => n.holder.Draining?
    case ReleaseProbe(epoch, now, ids) => IsBatch(n.db, ids, 1)
    case Restart => true
  }

  ghost function Next(n: Node, step: Step, config: B.Config, batch: nat, limit: nat): Node
    requires CanStep(n, step, batch)
  {
    match step
    case StoreStep(action) => n.(db := Perform(n.db, action, limit))
    case Park(actor, ids) => n.(db := ParkBatch(n.db, ids), actors := n.actors[actor := Wrote(ids)])
    case CheckState(actor, now) =>
      var circuit := B.Advance(n.circuit, now);
      n.(circuit := circuit, actors := if circuit.state.Closed? then n.actors[actor := MustRequest]
        else n.actors - {actor})
    case RequestDrain(actor) => n.(drainPending := true, actors := n.actors - {actor})
    case Allow(now) =>
      var circuit := B.Advance(n.circuit, now);
      n.(circuit := if circuit.state.HalfOpen? then circuit.(probeInFlight := true) else circuit)
    case FinishPermit(actor, epoch, probe, result, now) =>
      var circuit := B.Completed(n.circuit, config, epoch, probe, result, now);
      n.(circuit := circuit,
         actors := if !n.circuit.state.Closed? && circuit.state.Closed? then n.actors[actor := MustRequest]
           else n.actors)
    case StartDrain => n.(holder := Draining)
    case DrainBatch(ids) => n.(db := ReleaseAll(n.db, ids), holder := if |ids| < batch then Finishing else Draining)
    case FinishDrain => n.(drainPending := false, holder := Free)
    case FailDrain => n.(holder := Free)
    case ReleaseProbe(epoch, now, ids) =>
      var circuit := B.Advance(n.circuit, now);
      if circuit.state.HalfOpen? && circuit.epoch == epoch && !circuit.probeInFlight
      then n.(db := ReleaseAll(n.db, ids), circuit := circuit)
      else n.(circuit := circuit)
    case Restart => Node(n.db, B.NEW_CIRCUIT, true, Free, map[])
  }

  ghost predicate ParkerHolds(n: Node, r: nat) {
    exists a :: a in n.actors && n.actors[a].Wrote? && r in n.actors[a].ids
  }

  ghost predicate RequestComing(n: Node) {
    exists a :: a in n.actors && n.actors[a].MustRequest?
  }

  /** The row will be drained: a drain is due, or someone is about to ask for one. */
  ghost predicate Attended(n: Node, r: nat) {
    n.drainPending || ParkerHolds(n, r) || RequestComing(n)
  }

  ghost predicate NobodyStranded(n: Node) {
    n.circuit.state.Closed? ==> forall r :: Waiting(n.db.tasks, r) ==> Attended(n, r)
  }

  /** As NobodyStranded, but a drain that is about to clear its own flag no longer counts. */
  ghost predicate Held(n: Node, r: nat) {
    (n.drainPending && !n.holder.Finishing?) || ParkerHolds(n, r) || RequestComing(n)
  }

  ghost predicate Sound(n: Node, limit: nat) {
    && Inv(n.db, limit)
    && (!n.holder.Free? ==> n.drainPending)
    && (n.circuit.state.Closed? ==> forall r :: Waiting(n.db.tasks, r) ==> Held(n, r))
  }

  lemma ReleaseEmpties(db: Db, ids: seq<nat>, batch: nat, limit: nat)
    requires Inv(db, limit) && IsBatch(db, ids, batch)
    ensures Inv(ReleaseAll(db, ids), limit) && ParksNothing(db.tasks, ReleaseAll(db, ids).tasks)
    ensures |ids| < batch ==> forall r :: !Waiting(ReleaseAll(db, ids).tasks, r)
  {
    ReleaseKeeps(db, ids, WaitingDep, limit);
    ReleaseParksNothing(db, ids);
    S.ReleaseLeaves(db, ids, WaitingDep);
  }

  lemma StoreStepHolds(n: Node, action: Action, limit: nat)
    requires Sound(n, limit) && !action.ParkTasks? && Enabled(n.db, action)
    ensures Sound(n.(db := Perform(n.db, action, limit)), limit)
  {
    OnlyParkingParks(n.db, action, limit);
    PerformKeeps(n.db, action, limit);
    SameActorsHold(n, n.(db := Perform(n.db, action, limit)), limit);
  }

  lemma ParkingParks(db: Db, ids: seq<nat>, limit: nat)
    requires Inv(db, limit) && CanPark(db, ids)
    ensures Inv(ParkBatch(db, ids), limit)
    ensures forall r :: Waiting(ParkBatch(db, ids).tasks, r) ==> r in ids || Waiting(db.tasks, r)
  {
    ParkKeeps(db, ids, limit);
  }

  /** Whoever parked a row holds it until the state is checked. */
  lemma ParkHolds(n: Node, actor: nat, ids: seq<nat>, db: Db, limit: nat)
    requires Sound(n, limit) && actor !in n.actors && Inv(db, limit)
    requires forall r :: Waiting(db.tasks, r) ==> r in ids || Waiting(n.db.tasks, r)
    ensures Sound(n.(db := db, actors := n.actors[actor := Wrote(ids)]), limit)
  {
    var after := n.(db := db, actors := n.actors[actor := Wrote(ids)]);
    assert after.actors[actor] == Wrote(ids);
    assert forall a :: a in n.actors ==> a in after.actors && after.actors[a] == n.actors[a];
    forall r | n.circuit.state.Closed? && Waiting(after.db.tasks, r)
      ensures Held(after, r)
    {
      if r !in ids {
        assert Held(n, r);
      }
    }
  }

  lemma CheckHolds(n: Node, actor: nat, now: int, batch: nat, config: B.Config, limit: nat)
    requires Sound(n, limit) && CanStep(n, CheckState(actor, now), batch)
    ensures Sound(Next(n, CheckState(actor, now), config, batch, limit), limit)
  {
    var after := Next(n, CheckState(actor, now), config, batch, limit);
    if after.circuit.state.Closed? {
      assert after.actors[actor].MustRequest?;
    }
  }

  lemma RequestHolds(n: Node, actor: nat, batch: nat, config: B.Config, limit: nat)
    requires Sound(n, limit) && CanStep(n, RequestDrain(actor), batch)
    ensures Sound(Next(n, RequestDrain(actor), config, batch, limit), limit)
  {
  }

  lemma FinishHolds(n: Node, step: Step, batch: nat, config: B.Config, limit: nat)
    requires Sound(n, limit) && step.FinishPermit? && CanStep(n, step, batch)
    ensures Sound(Next(n, step, config, batch, limit), limit)
  {
    var after := Next(n, step, config, batch, limit);
    if !n.circuit.state.Closed? && after.circuit.state.Closed? {
      assert after.actors[step.actor].MustRequest?;
    }
  }

  lemma SameActorsHold(n: Node, after: Node, limit: nat)
    requires Sound(n, limit) && Inv(after.db, limit) && ParksNothing(n.db.tasks, after.db.tasks)
    requires after.actors == n.actors && after.drainPending == n.drainPending
    requires after.circuit.state.Closed? ==> n.circuit.state.Closed?
    requires after.holder == n.holder || (after.holder.Free? && !n.holder.Finishing?)
      || (after.holder.Draining? && n.drainPending)
    ensures Sound(after, limit)
  {
    forall r | after.circuit.state.Closed? && Waiting(after.db.tasks, r)
      ensures Held(after, r)
    {
      assert Held(n, r);
    }
  }

  lemma DrainHolds(n: Node, ids: seq<nat>, batch: nat, config: B.Config, limit: nat)
    requires Sound(n, limit) && CanStep(n, DrainBatch(ids), batch)
    ensures Sound(Next(n, DrainBatch(ids), config, batch, limit), limit)
  {
    var after := Next(n, DrainBatch(ids), config, batch, limit);
    ReleaseEmpties(n.db, ids, batch, limit);
    if |ids| >= batch {
      SameActorsHold(n, after, limit);
    }
  }

  /** A drain clears its flag only when whoever parked since is still on the way. */
  lemma ClearingHolds(n: Node, limit: nat)
    requires Sound(n, limit) && n.holder.Finishing?
    ensures Sound(n.(drainPending := false, holder := Free), limit)
  {
    forall r | n.circuit.state.Closed? && Waiting(n.db.tasks, r)
      ensures Held(n.(drainPending := false, holder := Free), r)
    {
      assert Held(n, r);
    }
  }

  lemma SoundStrandsNobody(n: Node, limit: nat)
    requires Sound(n, limit)
    ensures NobodyStranded(n)
  {
    forall r | n.circuit.state.Closed? && Waiting(n.db.tasks, r)
      ensures Attended(n, r)
    {
      assert Held(n, r);
    }
  }

  /** Steps that neither park, nor request, nor end a drain. */
  lemma QuietStepHolds(n: Node, step: Step, batch: nat, config: B.Config, limit: nat)
    requires Sound(n, limit) && CanStep(n, step, batch)
    requires step.Allow? || step.StartDrain? || step.FailDrain?
    ensures Sound(Next(n, step, config, batch, limit), limit)
  {
    SameActorsHold(n, Next(n, step, config, batch, limit), limit);
  }

  lemma ProbeHolds(n: Node, step: Step, batch: nat, config: B.Config, limit: nat)
    requires Sound(n, limit) && step.ReleaseProbe? && CanStep(n, step, batch)
    ensures Sound(Next(n, step, config, batch, limit), limit)
  {
    ReleaseEmpties(n.db, step.ids, 1, limit);
    SameActorsHold(n, Next(n, step, config, batch, limit), limit);
  }

  lemma RestartHolds(n: Node, batch: nat, config: B.Config, limit: nat)
    requires Sound(n, limit) && CanStep(n, Restart, batch)
    ensures Sound(Next(n, Restart, config, batch, limit), limit)
  {
  }

  /** Every step of every goroutine keeps each waiting row attended while the breaker is closed. */
  lemma StepKeeps(n: Node, step: Step, config: B.Config, batch: nat, limit: nat)
    requires Sound(n, limit) && CanStep(n, step, batch)
    ensures Sound(Next(n, step, config, batch, limit), limit)
  {
    match step
    case StoreStep(action) => StoreStepHolds(n, action, limit);
    case Park(actor, ids) =>
      ParkingParks(n.db, ids, limit);
      ParkHolds(n, actor, ids, ParkBatch(n.db, ids), limit);
    case CheckState(actor, now) => CheckHolds(n, actor, now, batch, config, limit);
    case RequestDrain(actor) => RequestHolds(n, actor, batch, config, limit);
    case FinishPermit(_, _, _, _, _) => FinishHolds(n, step, batch, config, limit);
    case DrainBatch(ids) => DrainHolds(n, ids, batch, config, limit);
    case FinishDrain => ClearingHolds(n, limit);
    case ReleaseProbe(_, _, _) => ProbeHolds(n, step, batch, config, limit);
    case Restart => RestartHolds(n, batch, config, limit);
    case _ => QuietStepHolds(n, step, batch, config, limit);
  }

  ghost predicate Run(states: seq<Node>, steps: seq<Step>, config: B.Config, batch: nat, limit: nat) {
    && |states| == |steps| + 1
    && forall k :: 0 <= k < |steps| ==>
      CanStep(states[k], steps[k], batch) && states[k + 1] == Next(states[k], steps[k], config, batch, limit)
  }

  /** A fresh process over any durable database: closed, and due a drain of what an outage left. */
  ghost predicate Starts(n: Node, limit: nat) {
    Inv(n.db, limit) && n.circuit == B.NEW_CIRCUIT && n.drainPending && n.holder.Free? && n.actors == map[]
  }

  /** In every interleaving, from every start, nobody is stranded. */
  lemma {:induction false} RunStrandsNobody(
    states: seq<Node>, steps: seq<Step>, config: B.Config, batch: nat, limit: nat, k: nat)
    requires Run(states, steps, config, batch, limit) && Starts(states[0], limit) && k <= |steps|
    ensures Sound(states[k], limit) && NobodyStranded(states[k])
    decreases k
  {
    if k > 0 {
      RunStrandsNobody(states, steps, config, batch, limit, k - 1);
      StepKeeps(states[k - 1], steps[k - 1], config, batch, limit);
    }
    SoundStrandsNobody(states[k], limit);
  }

  /** With every goroutine between calls, a closed breaker and a waiting row mean a drain can start. */
  lemma QuiescentNodeDrains(n: Node, limit: nat, r: nat, batch: nat)
    requires Sound(n, limit) && n.actors == map[] && n.holder.Free? && n.circuit.state.Closed? && Waiting(n.db.tasks, r)
    ensures CanStep(n, StartDrain, batch)
  {
    assert Held(n, r);
  }

  // ------------------------------------------------------------------ the drain

  class Drain {
    const store: S.Store
    const releaseBatch: nat
    var drainPending: bool

    constructor (store: S.Store, releaseBatch: nat)
      requires releaseBatch > 0
      ensures this.store == store && this.releaseBatch == releaseBatch && drainPending
    {
      this.store, this.releaseBatch, this.drainPending := store, releaseBatch, true;
    }

    /** drainWaiting, undisturbed: every waiting row is released, and nothing once that is done. */
    method DrainWaiting() returns (released: nat)
      requires store.Valid() && releaseBatch > 0
      modifies this`drainPending, store`tasks
      ensures store.Valid() && !drainPending
      ensures !old(drainPending) ==> released == 0 && store.tasks == old(store.tasks)
      ensures old(drainPending) ==> forall r :: !Waiting(store.tasks, r)
    {
      released := 0;
      if !drainPending {
        return;
      }
      var more := true;
      while more
        invariant store.Valid() && drainPending
        invariant !more ==> forall r :: !Waiting(store.tasks, r)
        decreases WaitingRows(store.tasks), more
      {
        ghost var before := store.View();
        var ids := store.ReleaseToPending(WaitingDep, 0, releaseBatch);
        BatchReleased(before, ids, releaseBatch);
        ReleaseParksNothing(before, ids);
        assert ids != [] ==> ids[0] in WaitingRows(before.tasks) && ids[0] !in WaitingRows(store.tasks);
        released := released + |ids|;
        more := |ids| == releaseBatch;
      }
      drainPending := false;
    }
  }

  ghost function WaitingRows(tasks: map<nat, Task>): set<nat> {
    set r | r in tasks && Waiting(tasks, r)
  }

  lemma BatchReleased(before: Db, ids: seq<nat>, batch: nat)
    requires batch > 0 && S.FirstInOrder(before.tasks, S.ReleasableRows(before.tasks, WaitingDep, 0), batch,
      S.ByPriority, ids)
    ensures |ids| <= batch && (|ids| < batch ==> forall r :: Waiting(before.tasks, r) ==> r in ids)
    ensures ids != [] ==> Waiting(before.tasks, ids[0])
  {
    var rows := S.ReleasableRows(before.tasks, WaitingDep, 0);
    assert forall r :: Waiting(before.tasks, r) <==> r in rows;
    assert ids != [] ==> ids[0] in ids;
    if |ids| < batch {
      DistinctAll(ids, rows);
    }
  }
}
