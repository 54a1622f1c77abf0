/** The watcher's and the scanner's own methods, each one critical section of the protocol. */
module Watch {
  import opened Basics
  import opened Roots
  import opened Backoff
  import Paths

  datatype WatchError = Exists | Overlaps | NotFound

  predicate Nested(p: Path, q: Path) {
    Paths.Within(p, q) || Paths.Within(q, p)
  }

  /** Roots clash when one is at or below the other, as named or as resolved (an unresolved path is empty). */
  predicate Clash(p: Path, realP: Path, q: Path, realQ: Path) {
    Nested(p, q) || (realP != "" && realQ != "" && Nested(realP, realQ))
  }

  class Manager {
    var roots: map<Path, Root>
    var realPaths: map<Path, Path>
    var nextEpoch: nat

    ghost predicate Valid()
      reads this
    {
      && realPaths.Keys == roots.Keys
      && (forall p, q :: p in roots && q in roots && p != q ==> !Clash(p, realPaths[p], q, realPaths[q]))
      && (forall p :: p in roots ==> 1 <= roots[p].epoch <= nextEpoch)
    }

    /** The manager's part of the protocol's state. */
    ghost predicate Mirrors(n: Net)
      reads this
    {
      n.roots == roots && n.nextEpoch == nextEpoch
    }

    constructor ()
      ensures Valid() && Mirrors(START)
    {
      roots, realPaths, nextEpoch := map[], map[], 0;
    }

    /** AddRoot: a new instance, dirty from the start, that clashes with no other root. */
    method AddRoot(path: Path, realPath: Path, ghost n: Net, ghost actor: nat) returns (error: Option<WatchError>)
      requires Valid() && Mirrors(n) && actor !in n.notices
      modifies this
      ensures Valid()
      ensures error.None? <==>
        path !in old(roots) && forall q :: q in old(roots) ==> !Clash(path, realPath, q, old(realPaths)[q])
      ensures error.None? ==> CanStep(n, Roots.AddRoot(actor, path)) && Mirrors(Next(n, Roots.AddRoot(actor, path)))
      ensures realPaths == if error.None? then old(realPaths)[path := realPath] else old(realPaths)
      ensures error.Some? ==> Mirrors(n)
    {
      error := Check(path, realPath);
      if error.None? {
        Insert(path, realPath);
      }
    }

    method Check(path: Path, realPath: Path) returns (error: Option<WatchError>)
      requires realPaths.Keys == roots.Keys
      ensures error.None? <==> path !in roots && forall q :: q in roots ==> !Clash(path, realPath, q, realPaths[q])
    {
      if path in roots {
        return Some(Exists);
      }
      var rest := roots.Keys;
      while rest != {}
        invariant rest <= roots.Keys
        invariant forall q :: q in roots && q !in rest ==> !Clash(path, realPath, q, realPaths[q])
      {
        var q :| q in rest;
        if Clash(path, realPath, q, realPaths[q]) {
          return Some(Overlaps);
        }
        rest := rest - {q};
      }
      return None;
    }

    method Insert(path: Path, realPath: Path)
      requires Valid() && path !in roots && forall q :: q in roots ==> !Clash(path, realPath, q, realPaths[q])
      modifies this
      ensures Valid() && nextEpoch == old(nextEpoch) + 1
      ensures roots == old(roots)[path := Root(nextEpoch, true, 1, false)]
        && realPaths == old(realPaths)[path := realPath]
    {
      nextEpoch := nextEpoch + 1;
      roots, realPaths := roots[path := Root(nextEpoch, true, 1, false)], realPaths[path := realPath];
    }

    /** markDirty: every loss counts, only the first since the last clean state notifies. */
    method MarkDirty(path: Path, ghost n: Net, ghost actor: nat) returns (notify: bool)
      requires Valid() && Mirrors(n) && actor !in n.notices
      modifies this`roots
      ensures Valid()
      ensures CanStep(n, Loss(actor, path)) ==>
        Mirrors(Next(n, Loss(actor, path))) && (notify <==> actor in Next(n, Loss(actor, path)).notices)
      ensures !CanStep(n, Loss(actor, path)) ==> Mirrors(n) && !notify
    {
      LossIs(n, actor, path);
      notify := Record(path);
    }

    method Record(path: Path) returns (notify: bool)
      requires Valid()
      modifies this`roots
      ensures Valid()
      ensures path in old(roots) && !old(roots)[path].removing ==>
        && notify == !old(roots)[path].dirty
        && roots == old(roots)[path := old(roots)[path].(dirty := true, generation := old(roots)[path].generation + 1)]
      ensures path !in old(roots) || old(roots)[path].removing ==> !notify && roots == old(roots)
    {
      if path !in roots || roots[path].removing {
        return false;
      }
      var r := roots[path];
      notify := !r.dirty;
      roots := roots[path := r.(dirty := true, generation := r.generation + 1)];
    }

    /** AcknowledgeDirtyEpoch, as the scanner calls it for a dirty root it has judged. */
    method Acknowledge(id: Id, generation: nat, ghost n: Net, ghost deferred: bool)
      returns (acknowledged: bool, error: Option<WatchError>)
      requires Valid() && Mirrors(n) && id.epoch != 0
      requires CanStep(n, Roots.Acknowledge(id, deferred)) && n.works[id].dirty && n.works[id].generation == generation
      modifies this`roots
      ensures Valid() && Mirrors(Next(n, Roots.Acknowledge(id, deferred)))
      ensures error.Some? <==> id.path !in n.roots
      ensures acknowledged <==> Acknowledges(n.roots, id, n.works[id])
    {
      AcknowledgeIs(n, id, deferred);
      acknowledged, error := Clear(id, generation);
    }

    method Clear(id: Id, generation: nat) returns (cleared: bool, error: Option<WatchError>)
      requires Valid()
      modifies this`roots
      ensures Valid() && (error.Some? <==> id.path !in old(roots))
      ensures cleared <==>
        Lists(old(roots), id) && (!old(roots)[id.path].dirty || old(roots)[id.path].generation == generation)
      ensures roots == if cleared then old(roots)[id.path := old(roots)[id.path].(dirty := false)] else old(roots)
    {
      if id.path !in roots {
        return false, Some(NotFound);
      }
      var r := roots[id.path];
      if r.epoch != id.epoch {
        return false, None;
      }
      if !r.dirty {
        assert roots == roots[id.path := r.(dirty := false)];
        return true, None;
      }
      if r.generation != generation {
        return false, None;
      }
      roots := roots[id.path := r.(dirty := false)];
      return true, None;
    }

    /** The first half of RemoveRoot: from here on no loss is recorded for the root. */
    method BeginRemove(path: Path, ghost n: Net) returns (error: Option<WatchError>)
      requires Valid() && Mirrors(n)
      modifies this`roots
      ensures Valid() && (error.None? <==> CanStep(n, Roots.BeginRemove(path)))
      ensures if error.None? then Mirrors(Next(n, Roots.BeginRemove(path))) else Mirrors(n)
    {
      BeginRemoveIs(n, path);
      error := Stop(path);
    }

    method Stop(path: Path) returns (error: Option<WatchError>)
      requires Valid()
      modifies this`roots
      ensures Valid() && (error.None? <==> path in old(roots))
      ensures roots == if error.None? then old(roots)[path := old(roots)[path].(removing := true)] else old(roots)
    {
      if path !in roots {
        return Some(NotFound);
      }
      roots := roots[path := roots[path].(removing := true)];
      return None;
    }

    /** Its second half, once the fence has returned: the instance is forgotten. */
    method Forget(id: Id, ghost n: Net)
      requires Valid() && Mirrors(n) && id in n.fenced && (Lists(n.roots, id) ==> n.roots[id.path].removing)
      modifies this`roots, this`realPaths
      ensures Valid()
      ensures Lists(n.roots, id) ==> CanStep(n, Delete(id.path)) && Mirrors(Next(n, Delete(id.path)))
      ensures !Lists(n.roots, id) ==> Mirrors(n)
    {
      if id.path in roots && roots[id.path].epoch == id.epoch {
        roots, realPaths := roots - {id.path}, realPaths - {id.path};
      }
    }
  }

  class Scanner {
    const retryBase: nat
    const retryCap: nat
    var pending: map<Id, Queued>
    var works: map<Id, Work>
    var blocked: set<Id>
    var failures: map<Id, nat>

    /** The scanner's part of the protocol's state. */
    ghost predicate Mirrors(n: Net)
      reads this
    {
      n.pending == pending && n.works == works && n.blocked == blocked
    }

    constructor (retryBase: nat, retryCap: nat)
      ensures this.retryBase == retryBase && this.retryCap == retryCap
      ensures Mirrors(START) && failures == map[]
    {
      this.retryBase, this.retryCap := retryBase, retryCap;
      pending, works, blocked, failures := map[], map[], {}, map[];
    }

    method QueueLocked(id: Id, queued: Queued)
      modifies this`pending
      ensures pending == Enqueued(old(pending), id, queued)
    {
      var merged := queued;
      if id in pending && Priority(pending[id].trigger) >= Priority(queued.trigger) {
        var existing := pending[id];
        if existing.retryAt.None? || (queued.retryAt.Some? && existing.retryAt.value < queued.retryAt.value) {
          merged := merged.(retryAt := existing.retryAt);
        }
        merged := merged.(trigger := existing.trigger);
      }
      pending := pending[id := merged];
    }

    /** The locked part of MarkDirty: a fenced instance is not queued. */
    method Mark(id: Id, ghost n: Net, ghost actor: nat)
      requires Mirrors(n) && actor in n.notices && n.notices[actor] == Found(id)
      modifies this`pending
      ensures Mirrors(Next(n, Insert(actor)))
    {
      if id !in blocked {
        pending := pending[id := Queued(DirtyMark, None)];
      }
    }

    /** enqueueStartup and enqueueAll, after their snapshot; only the latter passes over fenced instances. */
    method QueueAll(listed: map<Path, Root>, trigger: Trigger, ghost n: Net)
      requires Mirrors(n) && n.loop == Queuing(listed, trigger)
      modifies this`pending
      ensures Mirrors(Next(n, CommitAll))
    {
      var skipped := if trigger.Startup? then {} else blocked;
      var rest := listed.Keys;
      ghost var before := pending;
      assert QueuedExcept(before, listed, trigger, skipped, rest) == before;
      while rest != {}
        invariant rest <= listed.Keys && pending == QueuedExcept(before, listed, trigger, skipped, rest)
        decreases rest
      {
        var p :| p in rest;
        var id := IdOf(listed, p);
        QueuedNext(before, listed, trigger, skipped, rest, p);
        rest := rest - {p};
        if id !in skipped {
          QueueLocked(id, Queued(trigger, None));
        }
      }
      AllAreQueued(before, listed, trigger, skipped);
    }

    /** requeueFailure and queueID: the work's root goes back into the queue. */
    method Requeue(id: Id, retryAt: Option<int>, ghost n: Net)
      requires Mirrors(n) && CanStep(n, Roots.Requeue(id, retryAt))
      modifies this`pending, this`works
      ensures Mirrors(Next(n, Roots.Requeue(id, retryAt)))
    {
      QueueLocked(id, Queued(works[id].phase.again, retryAt));
      works := works - {id};
    }

    /** The locked part of FenceRoot. */
    method Fence(id: Id, ghost n: Net) returns (joins: bool)
      requires Mirrors(n) && CanStep(n, FenceLock(id))
      modifies this
      ensures Mirrors(Next(n, FenceLock(id))) && failures == old(failures) - {id}
      ensures joins <==> !CanStep(Next(n, FenceLock(id)), FenceReturn(id))
    {
      blocked := blocked + {id};
      pending := pending - {id};
      failures := failures - {id};
      joins := id in works && works[id].phase.Scanning?;
      if joins {
        works := works[id := works[id].(cancelled := true)];
      }
    }

    /** pruneBlockedLocked: a tombstone outlives its listing while a round still holds the instance. */
    method PruneBlocked(taken: map<Path, Root>)
      modifies this`blocked
      ensures blocked == Pruned(old(blocked), taken, works)
    {
      var rest := blocked;
      while rest != {}
        invariant rest <= blocked <= old(blocked)
        invariant forall id :: id in old(blocked) && id !in rest ==>
          (id in blocked <==> Lists(taken, id) || id in works)
        invariant forall id :: id in rest ==> id in blocked
        decreases rest
      {
        var id :| id in rest;
        if !Lists(taken, id) && id !in works {
          blocked := blocked - {id};
        }
        rest := rest - {id};
      }
    }

    function Failures(id: Id): nat
      reads this
    {
      if id in failures then failures[id] else 0
    }

    ghost function RetryTimes(now: int): map<Id, int>
      reads this
    {
      map id | id in pending :: now + Capped(retryBase, retryCap, Failures(id))
    }

    /** When each queued root would be looked at again. */
    method Postponements(now: int) returns (times: map<Id, int>)
      ensures times == RetryTimes(now)
    {
      times := map[];
      var rest := pending.Keys;
      while rest != {}
        invariant rest <= pending.Keys
        invariant times == map id | id in pending && id !in rest :: now + Capped(retryBase, retryCap, Failures(id))
      {
        var id :| id in rest;
        var delay := Delay(retryBase, retryCap, Failures(id));
        times := times[id := now + delay];
        rest := rest - {id};
      }
    }

    /** takeReady after its snapshot: drop what is gone, postpone what cannot run, dispatch the rest. */
    method TakeReady(taken: map<Path, Root>, now: int, ghost n: Net)
      requires works == map[] && Mirrors(n) && n.loop == Taking(taken)
      modifies this
      ensures Mirrors(Next(n, CommitTake(now, old(RetryTimes(now)))))
    {
      CommitTakeIs(n, now, RetryTimes(now));
      TakeLocked(taken, now);
    }

    method TakeLocked(taken: map<Path, Root>, now: int)
      requires works == map[]
      modifies this
      ensures blocked == Pruned(old(blocked), taken, map[])
      ensures pending == StillPending(old(pending), taken, now, old(RetryTimes(now)))
      ensures works == DispatchedWorks(old(pending), taken, now)
    {
      var times := Postponements(now);
      PruneBlocked(taken);
      Take(taken, now, times);
    }

    method Take(taken: map<Path, Root>, now: int, times: map<Id, int>)
      requires works == map[] && pending.Keys <= times.Keys
      modifies this`pending, this`works, this`failures
      ensures pending == StillPending(old(pending), taken, now, times)
      ensures works == DispatchedWorks(old(pending), taken, now)
    {
      var before := pending;
      var rest := pending.Keys;
      ghost var kept, sent := StillPending(before, taken, now, times), DispatchedWorks(before, taken, now);
      while rest != {}
        invariant rest <= before.Keys
        invariant pending == Undecided(before, kept, rest) && works == Only(sent, rest)
        decreases rest
      {
        var id :| id in rest;
        UndecidedNext(before, kept, sent, rest, id);
        Fate(before, taken, now, times, id);
        rest := rest - {id};
        if !Lists(taken, id) {
          pending, failures := pending - {id}, failures - {id};
        } else if Due(before[id], now) {
          if taken[id.path].removing {
            pending := pending[id := before[id].(retryAt := Some(times[id]))];
          } else {
            pending := pending - {id};
            works := works[id := Work(taken[id.path].dirty, taken[id.path].generation, before[id].trigger, Dispatched,
              false)];
          }
        }
      }
    }
  }

  lemma LossIs(n: Net, actor: nat, path: Path)
    requires actor !in n.notices
    ensures CanStep(n, Loss(actor, path)) <==> path in n.roots && !n.roots[path].removing
    ensures CanStep(n, Loss(actor, path)) ==>
      var r, after := n.roots[path], Next(n, Loss(actor, path));
      && after.nextEpoch == n.nextEpoch && (actor in after.notices <==> !r.dirty)
      && after.roots == n.roots[path := r.(dirty := true, generation := r.generation + 1)]
  {
  }

  lemma BeginRemoveIs(n: Net, path: Path)
    ensures CanStep(n, BeginRemove(path)) <==> path in n.roots
    ensures CanStep(n, BeginRemove(path)) ==>
      var after := Next(n, BeginRemove(path));
      after.nextEpoch == n.nextEpoch && after.roots == n.roots[path := n.roots[path].(removing := true)]
  {
  }

  lemma AcknowledgeIs(n: Net, id: Id, deferred: bool)
    requires CanStep(n, Acknowledge(id, deferred)) && n.works[id].dirty
    ensures var after := Next(n, Acknowledge(id, deferred));
      && after.nextEpoch == n.nextEpoch
      && after.roots == if Acknowledges(n.roots, id, n.works[id])
        then n.roots[id.path := n.roots[id.path].(dirty := false)] else n.roots
  {
  }

  lemma CommitTakeIs(n: Net, now: int, retries: map<Id, int>)
    requires CanStep(n, CommitTake(now, retries))
    ensures var after := Next(n, CommitTake(now, retries));
      && after.blocked == Pruned(n.blocked, n.loop.taken, n.works)
      && after.pending == StillPending(n.pending, n.loop.taken, now, retries)
      && after.works == DispatchedWorks(n.pending, n.loop.taken, now)
  {
  }

  /** Part-way through a queueing of all roots: those still to come are as before. */
  ghost function QueuedExcept(
    before: map<Id, Queued>, listed: map<Path, Root>, trigger: Trigger, skipped: set<Id>, rest: set<Path>): map<Id,
      Queued>
  {
    map id | id in before.Keys + IdsOf(listed) && (id in before || (id !in skipped && id.path !in rest)) ::
      if Lists(listed, id) && id !in skipped && id.path !in rest then Enqueued(before, id, Queued(trigger, None))[id]
      else before[id]
  }

  lemma QueuedNext(
    before: map<Id, Queued>, listed: map<Path, Root>, trigger: Trigger, skipped: set<Id>, rest: set<Path>, p: Path)
    requires p in rest && rest <= listed.Keys
    ensures var id := IdOf(listed, p);
      var now := QueuedExcept(before, listed, trigger, skipped, rest);
      QueuedExcept(before, listed, trigger, skipped, rest - {p}) ==
        if id in skipped then now else Enqueued(now, id, Queued(trigger, None))
  {
    var id := IdOf(listed, p);
    var now := QueuedExcept(before, listed, trigger, skipped, rest);
    var next := QueuedExcept(before, listed, trigger, skipped, rest - {p});
    assert id in IdsOf(listed);
    assert id in now <==> id in before;
    assert id in before ==> now[id] == before[id];
    forall other | other != id
      ensures other in next <==> other in now
      ensures other in next ==> next[other] == now[other]
    {
      assert Lists(listed, other) ==> other.path != p;
    }
  }

  lemma AllAreQueued(before: map<Id, Queued>, listed: map<Path, Root>, trigger: Trigger, skipped: set<Id>)
    ensures QueuedExcept(before, listed, trigger, skipped, {}) == AllQueued(before, listed, trigger, skipped)
  {
  }

  /** Part-way through a take: what is still to be looked at is as before, the rest as after. */
  ghost function Undecided(before: map<Id, Queued>, after: map<Id, Queued>, rest: set<Id>): map<Id, Queued> {
    map id | id in before && (id in rest || id in after) :: if id in rest then before[id] else after[id]
  }

  lemma UndecidedNext(before: map<Id, Queued>, after: map<Id, Queued>, sent: map<Id, Work>, rest: set<Id>, id: Id)
    requires id in rest && rest <= before.Keys
    ensures Undecided(before, after, rest - {id}) ==
      if id in after then Undecided(before, after, rest)[id := after[id]] else Undecided(before, after, rest) - {id}
    ensures Only(sent, rest - {id}) == if id in sent then Only(sent, rest)[id := sent[id]] else Only(sent, rest)
    ensures id in Undecided(before, after, rest) && Undecided(before, after, rest)[id] == before[id]
  {
  }

  /** What a take does with one queued root. */
  lemma Fate(before: map<Id, Queued>, taken: map<Path, Root>, now: int, times: map<Id, int>, id: Id)
    requires id in before && id in times
    ensures var kept, sent := StillPending(before, taken, now, times), DispatchedWorks(before, taken, now);
      if !Lists(taken, id) then id !in kept && id !in sent
      else if !Due(before[id], now) then id in kept && kept[id] == before[id] && id !in sent
      else if taken[id.path].removing
        then id in kept && kept[id] == Queued(before[id].trigger, Some(times[id])) && id !in sent
      else
        && id !in kept && id in sent
        && sent[id] == Work(taken[id.path].dirty, taken[id.path].generation, before[id].trigger, Dispatched, false)
  {
  }

  ghost function Only(works: map<Id, Work>, rest: set<Id>): map<Id, Work> {
    map id | id in works && id !in rest :: works[id]
  }
}
