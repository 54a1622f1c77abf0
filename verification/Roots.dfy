/**
 * Watched roots and their scans: dirty generations, root epochs, fencing, and
 * a scanner that reads the roots before it takes its own lock.
 */
module Roots {
  import opened Basics

  type Path = string

  /** One instance of a root; a path added again gets a new epoch. */
  datatype Id = Id(path: Path, epoch: nat)

  /** `generation` counts the losses recorded for this instance. */
  datatype Root = Root(epoch: nat, dirty: bool, generation: nat, removing: bool)

  datatype Trigger = Periodic | DirtyMark | Startup

  datatype Queued = Queued(trigger: Trigger, retryAt: Option<int>)

  datatype Outcome = ScanOk | ScanFailed | ScanCanceled

  /** `losses` is history: how many losses were recorded when the scan started. */
  datatype Phase =
    | Dispatched
    | Scanning(losses: nat)
    | Finished(outcome: Outcome, losses: nat)
    | Judged(losses: nat)
    | MustQueue(again: Trigger)

  /** A dispatched root as the snapshot showed it. */
  datatype Work = Work(dirty: bool, generation: nat, trigger: Trigger, phase: Phase, cancelled: bool)

  /** The watcher's own notification, between its steps. */
  datatype Notice = Notifying(path: Path) | Found(id: Id)

  /** The scanner's single loop: it reads the roots first and locks afterwards. */
  datatype Loop = Resting | Taking(taken: map<Path, Root>) | Queuing(listed: map<Path, Root>,
    trigger: Trigger) | Rounding

  datatype Scan = Scan(id: Id, losses: nat)

  datatype Net = Net(
    roots: map<Path, Root>, nextEpoch: nat, notices: map<nat, Notice>,
    pending: map<Id, Queued>, works: map<Id, Work>, blocked: set<Id>, loop: Loop,
    locked: set<Id>, fenced: set<Id>, completed: set<Scan>)

  const START := Net(map[], 0, map[], map[], map[], {}, Resting, {}, {}, {})

  predicate Lists(roots: map<Path, Root>, id: Id) {
    id.path in roots && roots[id.path].epoch == id.epoch
  }

  function IdOf(roots: map<Path, Root>, p: Path): Id
    requires p in roots
  {
    Id(p, roots[p].epoch)
  }

  function Priority(t: Trigger): nat {
    match t case Startup => 3 case DirtyMark => 2 case Periodic => 1
  }

  /** queueLocked: the stronger trigger and the earlier time survive. */
  function Merged(existing: Option<Queued>, queued: Queued): Queued {
    match existing
    case None => queued
    case Some(earlier) =>
      if Priority(earlier.trigger) < Priority(queued.trigger) then queued
      else Queued(earlier.trigger,
        if earlier.retryAt.None? || (queued.retryAt.Some? && earlier.retryAt.value < queued.retryAt.value)
          then earlier.retryAt else queued.retryAt)
  }

  function Enqueued(pending: map<Id, Queued>, id: Id, queued: Queued): map<Id, Queued> {
    pending[id := Merged(if id in pending then Some(pending[id]) else None, queued)]
  }

  datatype Step =
    | AddRoot(actor: nat, path: Path)
    | Loss(actor: nat, path: Path)
    | FindRoot(actor: nat)
    | Insert(actor: nat)
    | BeginRemove(path: Path)
    | FenceLock(id: Id)
    | FenceReturn(id: Id)
    | Delete(path: Path)
    | TakeSnapshot
    | CommitTake(now: int, retries: map<Id, int>)
    | ReadAll(trigger: Trigger)
    | CommitAll
    | Register(id: Id)
    | Finish(id: Id, outcome: Outcome)
    | Judge(id: Id)
    | Acknowledge(id: Id, deferred: bool)
    | Requeue(id: Id, retryAt: Option<int>)
    | EndRound

  ghost predicate CanStep(n: Net, step: Step) {
    match step
    case AddRoot(actor, p) => actor !in n.notices && p !in n.roots
    case Loss(actor, p) => actor !in n.notices && p in n.roots && !n.roots[p].removing
    case FindRoot(actor) => actor in n.notices && n.notices[actor].Notifying?
    case Insert(actor) => actor in n.notices && n.notices[actor].Found?
    case BeginRemove(p) => p in n.roots
    case FenceLock(id) => Lists(n.roots, id) && n.roots[id.path].removing
    case FenceReturn(id) => id in n.locked && !(id in n.works && n.works[id].phase.Scanning?)
    case Delete(p) => p in n.roots && n.roots[p].removing && IdOf(n.roots, p) in n.fenced
    case TakeSnapshot => n.loop.Resting?
    case CommitTake(_, _) => n.loop.Taking?
    case ReadAll(trigger) => n.loop.Resting? && !trigger.DirtyMark?
    case CommitAll => n.loop.Queuing?
    case Register(id) => id in n.works && n.works[id].phase.Dispatched?
    case Finish(id, outcome) =>
      id in n.works && n.works[id].phase.Scanning? && (outcome.ScanCanceled? ==> n.works[id].cancelled)
    case Judge(id) => id in n.works && n.works[id].phase.Finished?
    case Acknowledge(id, _) => id in n.works && n.works[id].phase.Judged?
    case Requeue(id, _) => id in n.works && n.works[id].phase.MustQueue?
    case EndRound => n.loop.Rounding? && n.works == map[]
  }

  // ------------------------------------------------------------------ takeReady

  predicate Due(queued: Queued, now: int) {
    queued.retryAt.None? || queued.retryAt.value <= now
  }

  predicate Ready(taken: map<Path, Root>, id: Id, queued: Queued, now: int) {
    Lists(taken, id) && Due(queued, now) && !taken[id.path].removing
  }

  /** What stays queued: roots not yet due, and those whose watcher is gone. */
  function StillPending(
    pending: map<Id, Queued>, taken: map<Path, Root>, now: int, retries: map<Id, int>): map<Id, Queued>
  {
    map id | id in pending && Lists(taken, id) && !Ready(taken, id, pending[id], now) ::
      if Due(pending[id], now) && id in retries then Queued(pending[id].trigger, Some(retries[id])) else pending[id]
  }

  function DispatchedWorks(pending: map<Id, Queued>, taken: map<Path, Root>, now: int): map<Id, Work> {
    map id | id in pending && Ready(taken, id, pending[id], now) ::
      Work(taken[id.path].dirty, taken[id.path].generation, pending[id].trigger, Dispatched, false)
  }

  function Pruned(blocked: set<Id>, taken: map<Path, Root>, works: map<Id, Work>): set<Id> {
    set id | id in blocked && (Lists(taken, id) || id in works)
  }

  /** AcknowledgeDirtyEpoch, with epoch and generation of the work. */
  predicate Acknowledges(roots: map<Path, Root>, id: Id, w: Work) {
    Lists(roots, id) && (!roots[id.path].dirty || roots[id.path].generation == w.generation)
  }

  ghost function Next(n: Net, step: Step): Net
    requires CanStep(n, step)
  {
    match step
    case AddRoot(actor, p) =>
      n.(roots := n.roots[p := Root(n.nextEpoch + 1, true, 1, false)], nextEpoch := n.nextEpoch + 1,
         notices := n.notices[actor := Notifying(p)])
    case Loss(actor, p) =>
      var r := n.roots[p];
      n.(roots := n.roots[p := r.(dirty := true, generation := r.generation + 1)],
         notices := if r.dirty then n.notices else n.notices[actor := Notifying(p)])
    case FindRoot(actor) =>
      var p := n.notices[actor].path;
      n.(notices := if p in n.roots then n.notices[actor := Found(IdOf(n.roots, p))] else n.notices - {actor})
    case Insert(actor) =>
      var id := n.notices[actor].id;
      n.(notices := n.notices - {actor},
         pending := if id in n.blocked then n.pending else n.pending[id := Queued(DirtyMark, None)])
    case BeginRemove(p) => n.(roots := n.roots[p := n.roots[p].(removing := true)])
    case FenceLock(id) =>
      n.(blocked := n.blocked + {id}, pending := n.pending - {id}, locked := n.locked + {id},
         works := if id in n.works && n.works[id].phase.Scanning? then n.works[id := n.works[id].(cancelled := true)]
           else n.works)
    case FenceReturn(id) => n.(fenced := n.fenced + {id})
    case Delete(p) => n.(roots := n.roots - {p})
    case TakeSnapshot => n.(loop := Taking(n.roots))
    case CommitTake(now, retries) =>
      n.(blocked := Pruned(n.blocked, n.loop.taken, n.works),
         pending := StillPending(n.pending, n.loop.taken, now, retries),
         works := DispatchedWorks(n.pending, n.loop.taken, now),
         loop := Rounding)
    case ReadAll(trigger) => n.(loop := Queuing(n.roots, trigger))
    case CommitAll =>
      var skipped := if n.loop.trigger.Startup? then {} else n.blocked;
      n.(pending := AllQueued(n.pending, n.loop.listed, n.loop.trigger, skipped), loop := Resting)
    case Register(id) =>
      n.(works := n.works[id := n.works[id].(phase :=
        if id in n.blocked then Finished(ScanCanceled, 0)
        else Scanning(if Lists(n.roots, id) then n.roots[id.path].generation else n.works[id].generation))])
    case Finish(id, outcome) =>
      var losses := n.works[id].phase.losses;
      n.(works := n.works[id := n.works[id].(phase := Finished(outcome, losses))],
         completed := if outcome.ScanOk? then n.completed + {Scan(id, losses)} else n.completed)
    case Judge(id) =>
      var w := n.works[id];
      n.(works := if id in n.blocked || w.phase.outcome.ScanCanceled? then n.works - {id}
                  else n.works[id := w.(phase := if w.phase.outcome.ScanOk? then Judged(w.phase.losses)
                    else MustQueue(w.trigger))])
    case Acknowledge(id, deferred) =>
      var w := n.works[id];
      var accepted := !w.dirty || Acknowledges(n.roots, id, w);
      n.(roots := if w.dirty && accepted then n.roots[id.path := n.roots[id.path].(dirty := false)] else n.roots,
         works := if accepted && !deferred then n.works - {id} else n.works[id := w.(phase := MustQueue(DirtyMark))])
    case Requeue(id, retryAt) =>
      n.(pending := Enqueued(n.pending, id, Queued(n.works[id].phase.again, retryAt)), works := n.works - {id})
    case EndRound => n.(loop := Resting)
  }

  ghost function AllQueued(
    pending: map<Id, Queued>, listed: map<Path, Root>, trigger: Trigger, skipped: set<Id>): map<Id, Queued>
  {
    map id | id in pending.Keys + IdsOf(listed) && (id in pending || id !in skipped) ::
      if Lists(listed, id) && id !in skipped then Enqueued(pending, id, Queued(trigger, None))[id] else pending[id]
  }

  ghost function IdsOf(listed: map<Path, Root>): set<Id> {
    set p | p in listed :: IdOf(listed, p)
  }
}
