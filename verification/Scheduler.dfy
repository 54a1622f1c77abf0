/** The scheduler: claiming from two sources, path exclusion, and what becomes of each claimed task. */
module Scheduler {
  import opened Basics
  import opened Catalog
  import Queue
  import opened QueueInvariant
  import opened QueueLeases
  import S = Store
  import opened Paths
  import opened Budget

  datatype ClaimedTask = ClaimedTask(id: nat, task: Task, source: Source)

  // ---------------------------------------------------------------------- claim

  function StoreSource(source: Source): Queue.Source {
    if source.FreshWork? then Queue.FreshSource else Queue.RetrySource
  }

  ghost function Ready(tasks: map<nat, Task>, now: int, source: Source): set<nat> {
    S.ClaimableRows(tasks, now, StoreSource(source))
  }

  function Members(ids: seq<nat>): set<nat> {
    set i | i in ids
  }

  /** A claim removes exactly what it took from what is ready, in both sources. */
  lemma ClaimShrinks(db: Db, ids: set<nat>, now: int, from: Queue.Source, source: Source)
    requires UniqueSlots(db.tasks) && forall i :: i in ids ==> Queue.Claimable(db.tasks, i, now, from)
    ensures Ready(Queue.Claim(db, ids).tasks, now, source) == Ready(db.tasks, now, source) - ids
  {
    var after := Queue.Claim(db, ids).tasks;
    forall i | i in db.tasks
      ensures i in Ready(after, now, source) <==> i in Ready(db.tasks, now, source) - ids
    {
      if i in ids {
        assert after[i].state.InFlight?;
      } else {
        assert after[i] == db.tasks[i];
        forall j | j in after && InSlot(after, j, after[i].path, InFlight)
          ensures j in ids || InSlot(db.tasks, j, db.tasks[i].path, InFlight)
        {
        }
        forall j | j in db.tasks && InSlot(db.tasks, j, db.tasks[i].path, InFlight)
          ensures InSlot(after, j, after[i].path, InFlight)
        {
          assert j !in ids;
        }
      }
    }
  }

  lemma ClaimsCompose(db: Db, a: set<nat>, b: set<nat>)
    requires forall i :: i in b ==> i !in a
    ensures Queue.Claim(Queue.Claim(db, a), b) == Queue.Claim(db, a + b)
  {
  }

  lemma ShortClaimTakesAll(tasks: map<nat, Task>, eligible: set<nat>, n: int, ids: seq<nat>)
    requires eligible <= tasks.Keys && S.FirstInOrder(tasks, eligible, n, S.ByPriority, ids) && |ids| < n
    ensures Members(ids) == eligible
  {
    DistinctAll(ids, eligible);
  }

  lemma DistinctUnion(a: seq<nat>, b: seq<nat>)
    requires NoDuplicates(a) && NoDuplicates(b) && forall i :: i in b ==> i !in a
    ensures NoDuplicates(a + b) && Members(a + b) == Members(a) + Members(b)
  {
    forall i, j | 0 <= i < j < |a + b|
      ensures (a + b)[i] != (a + b)[j]
    {
      assert i < |a| <= j ==> b[j - |a|] in b;
    }
    assert forall i :: i in a + b <==> i in a || i in b;
  }

  // ---------------------------------------------------------------------- merge

  datatype Slot = Slot(id: nat, source: Source)

  function Tagged(ids: seq<nat>, source: Source): seq<Slot> {
    seq(|ids|, i requires 0 <= i < |ids| => Slot(ids[i], source))
  }

  function Merge(plan: seq<Source>, freshIds: seq<nat>, retryIds: seq<nat>): seq<Slot>
    decreases |plan|
  {
    if plan == [] then Tagged(freshIds, FreshWork) + Tagged(retryIds, RetryWork)
    else if freshIds != [] && (plan[0].FreshWork? || retryIds == []) then
      [Slot(freshIds[0], FreshWork)] + Merge(plan[1..], freshIds[1..], retryIds)
    else if retryIds != [] then
      [Slot(retryIds[0], RetryWork)] + Merge(plan[1..], freshIds, retryIds[1..])
    else Merge(plan[1..], freshIds, retryIds)
  }

  function Only(slots: seq<Slot>, source: Source): seq<nat> {
    if slots == [] then []
    else (if slots[0].source == source then [slots[0].id] else []) + Only(slots[1..], source)
  }

  lemma {:induction false} OnlyTagged(ids: seq<nat>, tag: Source, source: Source)
    ensures Only(Tagged(ids, tag), source) == if tag == source then ids else []
    decreases |ids|
  {
    if ids != [] {
      assert Tagged(ids, tag)[1..] == Tagged(ids[1..], tag);
      OnlyTagged(ids[1..], tag, source);
    }
  }

  lemma {:induction false} OnlySplit(a: seq<Slot>, b: seq<Slot>, source: Source)
    ensures Only(a + b, source) == Only(a, source) + Only(b, source)
    decreases |a|
  {
    if a == [] {
      assert a + b == b;
    } else {
      assert (a + b)[1..] == a[1..] + b;
      OnlySplit(a[1..], b, source);
      var head := if a[0].source == source then [a[0].id] else [];
      assert Only(a + b, source) == head + (Only(a[1..], source) + Only(b, source));
    }
  }

  /** The merge keeps each source's order, loses nothing and repeats nothing. */
  lemma {:induction false} MergeKeepsOrder(plan: seq<Source>, freshIds: seq<nat>, retryIds: seq<nat>)
    ensures Only(Merge(plan, freshIds, retryIds), FreshWork) == freshIds
    ensures Only(Merge(plan, freshIds, retryIds), RetryWork) == retryIds
    ensures |Merge(plan, freshIds, retryIds)| == |freshIds| + |retryIds|
    decreases |plan|
  {
    if plan == [] {
      OnlySplit(Tagged(freshIds, FreshWork), Tagged(retryIds, RetryWork), FreshWork);
      OnlySplit(Tagged(freshIds, FreshWork), Tagged(retryIds, RetryWork), RetryWork);
      OnlyTagged(freshIds, FreshWork, FreshWork);
      OnlyTagged(freshIds, FreshWork, RetryWork);
      OnlyTagged(retryIds, RetryWork, FreshWork);
      OnlyTagged(retryIds, RetryWork, RetryWork);
    } else if freshIds != [] && (plan[0].FreshWork? || retryIds == []) {
      MergeKeepsOrder(plan[1..], freshIds[1..], retryIds);
    } else if retryIds != [] {
      MergeKeepsOrder(plan[1..], freshIds, retryIds[1..]);
    } else {
      MergeKeepsOrder(plan[1..], freshIds, retryIds);
    }
  }

  /** While neither source has run out, every slot goes to the source the plan names. */
  lemma {:induction false} MergeFollowsPlan(plan: seq<Source>, freshIds: seq<nat>, retryIds: seq<nat>, k: nat)
    requires k < |plan| && Retries(plan[..k + 1]) <= |retryIds| && k + 1 - Retries(plan[..k + 1]) <= |freshIds|
    ensures k < |Merge(plan, freshIds, retryIds)| && Merge(plan, freshIds, retryIds)[k].source == plan[k]
    decreases |plan|
  {
    var prefix := plan[..k + 1];
    RetriesPeel(prefix);
    assert prefix[1..] == plan[1..][..k];
    if k > 0 {
      RetriesPeel(prefix[1..]);
      RetriesPrefix(plan[1..], k - 1, k);
      var restFresh := if plan[0].FreshWork? then freshIds[1..] else freshIds;
      var restRetry := if plan[0].RetryWork? then retryIds[1..] else retryIds;
      MergeFollowsPlan(plan[1..], restFresh, restRetry, k - 1);
    } else {
      assert plan[1..][..0] == [];
    }
  }

  lemma {:induction false} RetriesPeel(plan: seq<Source>)
    requires plan != []
    ensures Retries(plan) == Retries(plan[1..]) + if plan[0].RetryWork? then 1 else 0
    ensures Retries(plan) <= |plan|
    decreases |plan|
  {
    if |plan| > 1 {
      RetriesPeel(plan[..|plan| - 1]);
      assert plan[..|plan| - 1][1..] == plan[1..][..|plan| - 2];
    }
  }

  lemma {:induction false} RetriesPrefix(plan: seq<Source>, a: nat, b: nat)
    requires a <= b <= |plan|
    ensures Retries(plan[..a]) <= Retries(plan[..b]) <= Retries(plan[..a]) + (b - a)
    decreases b
  {
    if a < b {
      RetriesPrefix(plan, a, b - 1);
      assert plan[..b][..b - 1] == plan[..b - 1];
    }
  }

  /** What the next slot of a plan takes. */
  lemma MergeStep(done: seq<Slot>, plan: seq<Source>, k: nat, freshIds: seq<nat>, i: nat, retryIds: seq<nat>, j: nat)
    requires k < |plan| && i <= |freshIds| && j <= |retryIds|
    ensures done + Merge(plan[k..], freshIds[i..], retryIds[j..]) ==
      if i < |freshIds| && (plan[k].FreshWork? || j >= |retryIds|)
      then done + [Slot(freshIds[i], FreshWork)] + Merge(plan[k + 1..], freshIds[i + 1..], retryIds[j..])
      else if j < |retryIds|
      then done + [Slot(retryIds[j], RetryWork)] + Merge(plan[k + 1..], freshIds[i..], retryIds[j + 1..])
      else done + Merge(plan[k + 1..], freshIds[i..], retryIds[j..])
  {
    assert plan[k..][1..] == plan[k + 1..];
    assert i < |freshIds| ==> freshIds[i..][1..] == freshIds[i + 1..];
    assert j < |retryIds| ==> retryIds[j..][1..] == retryIds[j + 1..];
  }

  /** orderClaimed. */
  method OrderClaimed(plan: seq<Source>, freshIds: seq<nat>, retryIds: seq<nat>) returns (ordered: seq<Slot>)
    ensures ordered == Merge(plan, freshIds, retryIds)
  {
    var i, j := 0, 0;
    ordered, i, j := FollowPlan(plan, freshIds, retryIds);
    var rest := AppendRest(freshIds[i..], FreshWork);
    ordered := ordered + rest;
    rest := AppendRest(retryIds[j..], RetryWork);
    ordered := ordered + rest;
  }

  method FollowPlan(plan: seq<Source>, freshIds: seq<nat>, retryIds: seq<nat>)
    returns (ordered: seq<Slot>, i: nat, j: nat)
    ensures i <= |freshIds| && j <= |retryIds|
    ensures ordered + Tagged(freshIds[i..], FreshWork) + Tagged(retryIds[j..], RetryWork) == Merge(plan, freshIds,
      retryIds)
  {
    ordered, i, j := [], 0, 0;
    for k := 0 to |plan|
      invariant i <= |freshIds| && j <= |retryIds|
      invariant ordered + Merge(plan[k..], freshIds[i..], retryIds[j..]) == Merge(plan, freshIds, retryIds)
    {
      MergeStep(ordered, plan, k, freshIds, i, retryIds, j);
      if i < |freshIds| && (plan[k].FreshWork? || j >= |retryIds|) {
        ordered := ordered + [Slot(freshIds[i], FreshWork)];
        i := i + 1;
      } else if j < |retryIds| {
        ordered := ordered + [Slot(retryIds[j], RetryWork)];
        j := j + 1;
      }
    }
  }

  method AppendRest(ids: seq<nat>, source: Source) returns (slots: seq<Slot>)
    ensures slots == Tagged(ids, source)
  {
    slots := [];
    for k := 0 to |ids|
      invariant slots == Tagged(ids[..k], source)
    {
      slots := slots + [Slot(ids[k], source)];
    }
    assert ids[..|ids|] == ids;
  }

  // -------------------------------------------------------------------- claimReady

  /** What a round of claims did: three claims in sequence, at one moment, on one store. */
  ghost predicate Claims(before: Db, after: Db, now: int, freshIds: seq<nat>, retryIds: seq<nat>) {
    && NoDuplicates(freshIds) && NoDuplicates(retryIds)
    && (forall i :: i in freshIds ==> i in Ready(before.tasks, now, FreshWork))
    && (forall i :: i in retryIds ==> i in Ready(before.tasks, now, RetryWork))
    && after == Queue.Claim(before, Members(freshIds) + Members(retryIds))
    && Ready(after.tasks, now, FreshWork) == Ready(before.tasks, now, FreshWork) - Members(freshIds)
    && Ready(after.tasks, now, RetryWork) == Ready(before.tasks, now, RetryWork) - Members(retryIds)
  }

  lemma SourcesAreDisjoint(tasks: map<nat, Task>, now: int, i: nat)
    ensures !(i in Ready(tasks, now, FreshWork) && i in Ready(tasks, now, RetryWork))
  {
  }

  /** One more claim from one source. */
  lemma ClaimMore(before: Db, mid: Db, now: int, freshIds: seq<nat>, retryIds: seq<nat>, source: Source, more: seq<nat>)
    requires UniqueSlots(before.tasks) && UniqueSlots(mid.tasks) && Claims(before, mid, now, freshIds, retryIds)
    requires NoDuplicates(more) && forall i :: i in more ==> i in Ready(mid.tasks, now, source)
    ensures Claims(before, Queue.Claim(mid, Members(more)), now,
      if source.FreshWork? then freshIds + more else freshIds, if source.RetryWork? then retryIds + more else retryIds)
  {
    var taken := Members(freshIds) + Members(retryIds);
    forall i | i in more
      ensures i !in taken && i in Ready(before.tasks, now, source)
    {
      SourcesAreDisjoint(before.tasks, now, i);
    }
    ClaimsCompose(before, taken, Members(more));
    ClaimShrinks(mid, Members(more), now, StoreSource(source), FreshWork);
    ClaimShrinks(mid, Members(more), now, StoreSource(source), RetryWork);
    forall i | i in more
      ensures i !in Ready(mid.tasks, now, if source.FreshWork? then RetryWork else FreshWork)
    {
      SourcesAreDisjoint(mid.tasks, now, i);
    }
    DistinctUnion(if source.FreshWork? then freshIds else retryIds, more);
    assert taken + Members(more) ==
      Members(if source.FreshWork? then freshIds + more else freshIds)
      + Members(if source.RetryWork? then retryIds + more else retryIds);
  }

  method ClaimSource(store: S.Store, source: Source, limit: int, now: int) returns (ids: seq<nat>)
    requires store.Valid()
    modifies store`tasks
    ensures store.Valid() && NoDuplicates(ids) && |ids| <= Max(limit, 0)
    ensures forall i :: i in ids ==> i in Ready(old(store.tasks), now, source)
    ensures store.View() == Queue.Claim(old(store.View()), Members(ids))
    ensures |ids| < limit ==> Ready(old(store.tasks), now, source) == Members(ids)
  {
    ghost var before := store.View();
    ids := store.Claim(limit, now, StoreSource(source));
    ClaimKeeps(before, Members(ids), now, StoreSource(source), store.retryLimit);
    if |ids| < limit {
      ShortClaimTakesAll(old(store.tasks), Ready(old(store.tasks), now, source), limit, ids);
    }
  }

  /** The first two claims of a round: fresh work, then retries borrowing its unused share. */
  method ClaimTwice(store: S.Store, freshTarget: nat, limit: nat, now: int)
    returns (freshIds: seq<nat>, retryIds: seq<nat>)
    requires store.Valid() && freshTarget <= limit
    modifies store`tasks
    ensures store.Valid() && Claims(old(store.View()), store.View(), now, freshIds, retryIds)
    ensures |freshIds| <= freshTarget && |freshIds| + |retryIds| <= limit
    ensures |freshIds| < freshTarget ==> Ready(store.tasks, now, FreshWork) == {}
    ensures |freshIds| + |retryIds| < limit ==> Ready(store.tasks, now, RetryWork) == {}
  {
    ghost var before := store.View();
    freshIds := ClaimSource(store, FreshWork, freshTarget, now);
    ClaimFirst(before, now, freshIds);
    ghost var mid := store.View();
    retryIds := ClaimSource(store, RetryWork, limit - |freshIds|, now);
    ClaimSecond(before, mid, now, freshIds, retryIds);
  }

  /** The whole round: what fresh work left unclaimed may still take what retries did not use. */
  method ClaimBoth(store: S.Store, freshTarget: nat, limit: nat, now: int)
    returns (freshIds: seq<nat>, retryIds: seq<nat>, freshExhausted: bool)
    requires store.Valid() && freshTarget <= limit
    modifies store`tasks
    ensures store.Valid() && Claims(old(store.View()), store.View(), now, freshIds, retryIds)
    ensures |freshIds| + |retryIds| <= limit
    ensures |freshIds| + |retryIds| < limit ==>
      Ready(store.tasks, now, FreshWork) == {} && Ready(store.tasks, now, RetryWork) == {}
    ensures freshExhausted ==> Ready(store.tasks, now, FreshWork) == {}
  {
    freshIds, retryIds := ClaimTwice(store, freshTarget, limit, now);
    freshExhausted := |freshIds| < freshTarget;
    var remaining := limit - |freshIds| - |retryIds|;
    if remaining > 0 && !freshExhausted {
      ghost var last := store.View();
      var extra := ClaimSource(store, FreshWork, remaining, now);
      ClaimMore(old(store.View()), last, now, freshIds, retryIds, FreshWork, extra);
      ClaimShrinks(last, Members(extra), now, Queue.FreshSource, FreshWork);
      ClaimShrinks(last, Members(extra), now, Queue.FreshSource, RetryWork);
      freshIds := freshIds + extra;
      freshExhausted := |extra| < remaining;
    }
  }

  lemma ClaimFirst(before: Db, now: int, ids: seq<nat>)
    requires UniqueSlots(before.tasks) && NoDuplicates(ids) && forall i :: i in ids ==>
      i in Ready(before.tasks, now, FreshWork)
    ensures Claims(before, Queue.Claim(before, Members(ids)), now, ids, [])
  {
    NothingClaimed(before, now);
    ClaimMore(before, before, now, [], [], FreshWork, ids);
    assert [] + ids == ids;
  }

  lemma ClaimSecond(before: Db, mid: Db, now: int, freshIds: seq<nat>, ids: seq<nat>)
    requires UniqueSlots(before.tasks) && UniqueSlots(mid.tasks) && Claims(before, mid, now, freshIds, [])
    requires NoDuplicates(ids) && forall i :: i in ids ==> i in Ready(mid.tasks, now, RetryWork)
    ensures Claims(before, Queue.Claim(mid, Members(ids)), now, freshIds, ids)
  {
    ClaimMore(before, mid, now, freshIds, [], RetryWork, ids);
    assert [] + ids == ids;
  }

  /**
   * claimReady: never more than the limit, and fewer only when nothing of
   * either source is left to claim.
   */
  method ClaimReady(store: S.Store, limit: nat, now: int, credit: real, ratio: real)
    returns (ordered: seq<Slot>, freshExhausted: bool, ghost freshIds: seq<nat>, ghost retryIds: seq<nat>)
    requires store.Valid() && 0.0 < ratio < 1.0 && 0.0 <= credit <= 1.0
    modifies store`tasks
    ensures store.Valid() && Claims(old(store.View()), store.View(), now, freshIds, retryIds)
    ensures |ordered| == |freshIds| + |retryIds| <= limit
    ensures Only(ordered, FreshWork) == freshIds && Only(ordered, RetryWork) == retryIds
    ensures |ordered| < limit ==> Ready(store.tasks, now, FreshWork) == {} && Ready(store.tasks, now, RetryWork) == {}
    ensures freshExhausted ==> Ready(store.tasks, now, FreshWork) == {}
  {
    var plan := Plan(credit, ratio, limit);
    var freshTarget := CountFresh(plan);
    var first, second;
    first, second, freshExhausted := ClaimBoth(store, freshTarget, limit, now);
    ordered := OrderClaimed(plan, first, second);
    freshIds, retryIds := first, second;
    MergeKeepsOrder(plan, first, second);
  }

  lemma NothingClaimed(db: Db, now: int)
    ensures Claims(db, db, now, [], [])
  {
    assert Queue.Claim(db, {}) == db;
  }

  method CountFresh(plan: seq<Source>) returns (n: nat)
    ensures n <= |plan|
  {
    n := 0;
    for k := 0 to |plan|
      invariant n <= k
    {
      if plan[k].FreshWork? {
        n := n + 1;
      }
    }
  }

  // --------------------------------------------------------------------- dispatch

  /** scopeFor: tasks without a catalog row reserve whole directories when they remove or move. */
  function ScopeFor(t: Task): Scope {
    var paths := if t.op.Relocate? && t.oldPath.Some? then [t.path, t.oldPath.value] else [t.path];
    if t.fileId.None? && (t.op.Remove? || t.op.Relocate?) then Scope([], paths) else Scope(paths, [])
  }

  lemma ScopeReservesPath(t: Task)
    ensures Reserves(ScopeFor(t), t.path)
  {
    assert Within(t.path, t.path);
    assert ScopeFor(t).exact != [] ==> ScopeFor(t).exact[0] == t.path;
    assert ScopeFor(t).prefixes != [] ==> ScopeFor(t).prefixes[0] == t.path;
  }

  /**
   * What a task's scope keeps others away from: its paths, or whole directories
   * when it removes or moves something the catalog does not list as a file.
   */
  lemma ScopeCovers(t: Task, path: string)
    ensures Reserves(ScopeFor(t), path) <==>
      var moved := t.op.Relocate? && t.oldPath.Some?;
      if t.fileId.None? && !t.op.Upsert? then Within(t.path, path) || (moved && Within(t.oldPath.value, path))
      else path == t.path || (moved && path == t.oldPath.value)
  {
    var scope := ScopeFor(t);
    var paths := if t.op.Relocate? && t.oldPath.Some? then [t.path, t.oldPath.value] else [t.path];
    assert t.path == paths[0] && (|paths| > 1 ==> t.oldPath.value == paths[1]);
    assert forall p :: p in paths <==> p == t.path || (|paths| > 1 && p == t.oldPath.value);
    assert scope == Scope([], paths) || scope == Scope(paths, []);
  }

  /** Whatever else changed about a row, two leases of its path exclude each other. */
  lemma SamePathExcludes(earlier: Task, now: Task)
    requires earlier.path == now.path
    ensures Overlaps(ScopeFor(earlier), ScopeFor(now))
  {
    ScopeReservesPath(earlier);
    ScopeReservesPath(now);
    OverlapIsSharing(ScopeFor(earlier), ScopeFor(now));
  }

  ghost predicate PairwiseDisjoint(inFlight: map<nat, Scope>) {
    forall i, j :: i in inFlight && j in inFlight && i != j ==> !Overlaps(inFlight[i], inFlight[j])
  }

  ghost predicate Conflicts(scope: Scope, inFlight: map<nat, Scope>) {
    exists i :: i in inFlight && Overlaps(scope, inFlight[i])
  }

  /** Offering the task would replace the entry of an earlier lease of its row id. */
  ghost predicate Overwrites(inFlight: map<nat, Scope>, c: ClaimedTask) {
    c.id in inFlight && !Conflicts(ScopeFor(c.task), inFlight)
  }

  /** Retries need credit while there is fresh work. */
  predicate Admitted(source: Source, credit: real, ratio: real, freshExhausted: bool)
    requires 0.0 < ratio < 1.0
  {
    source.FreshWork? || CanRetry(credit, ratio) || freshExhausted
  }

  /** What dispatch does with one claimed task. */
  datatype Fate = Leased | Returned | Stuck

  /** A task has met its fate in the store: leased and untouched, or refunded in full, or refused a refund. */
  ghost predicate Settled(tasks: map<nat, Task>, c: ClaimedTask, fate: Fate, dueAt: int) {
    c.id in tasks &&
    match fate
    case Leased => tasks[c.id] == c.task
    case Returned => tasks[c.id] == Queue.Refunded(c.task, dueAt)
    case Stuck => tasks[c.id] == c.task && Queue.NewerOccupant(tasks, c.id, c.task, RetryWait)
  }

  /** The claimed tasks are what the store says, in flight, at distinct paths. */
  ghost predicate AreClaimed(tasks: map<nat, Task>, batch: seq<ClaimedTask>) {
    && (forall i :: 0 <= i < |batch| ==>
          batch[i].id in tasks && tasks[batch[i].id] == batch[i].task && batch[i].task.state.InFlight?)
    && (forall i, j :: 0 <= i < j < |batch| ==> batch[i].id != batch[j].id)
  }

  /** The fates of the first k tasks, and the rest still as claimed. */
  ghost predicate Progress(tasks: map<nat, Task>, batch: seq<ClaimedTask>, fates: seq<Fate>, dueAt: int) {
    && |fates| <= |batch|
    && (forall i :: 0 <= i < |fates| ==> Settled(tasks, batch[i], fates[i], dueAt))
    && (forall i :: |fates| <= i < |batch| ==> batch[i].id in tasks && tasks[batch[i].id] == batch[i].task)
  }

  ghost predicate DistinctPaths(batch: seq<ClaimedTask>) {
    && (forall i :: 0 <= i < |batch| ==> batch[i].task.state.InFlight?)
    && (forall i, j :: 0 <= i < j < |batch| ==> batch[i].id != batch[j].id && batch[i].task.path != batch[j].task.path)
  }

  lemma ClaimedPathsAreDistinct(tasks: map<nat, Task>, batch: seq<ClaimedTask>)
    requires UniqueSlots(tasks) && AreClaimed(tasks, batch)
    ensures DistinctPaths(batch) && Progress(tasks, batch, [], 0)
  {
  }

  /** A refund at one path leaves every other claimed task as it was. */
  lemma RefundProgress(db: Db, batch: seq<ClaimedTask>, fates: seq<Fate>, dueAt: int)
    requires DistinctPaths(batch) && Progress(db.tasks, batch, fates, dueAt) && |fates| < |batch|
    ensures var c := batch[|fates|];
      var outcome := Queue.MarkRetry(db, c.id, dueAt, true);
      Progress(After(db, outcome).tasks, batch, fates + [if outcome.Committed? then Returned else Stuck], dueAt)
  {
    var c := batch[|fates|];
    var outcome := Queue.MarkRetry(db, c.id, dueAt, true);
    var after := After(db, outcome).tasks;
    if outcome.Committed? {
      PlaceOnlyAt(db.tasks, c.id, Queue.Refunded(c.task, dueAt));
      forall i | 0 <= i < |batch| && i != |fates|
        ensures batch[i].id in after && after[batch[i].id] == db.tasks[batch[i].id]
        ensures Queue.NewerOccupant(db.tasks, batch[i].id, batch[i].task, RetryWait) ==>
          Queue.NewerOccupant(after, batch[i].id, batch[i].task, RetryWait)
      {
        assert batch[i].task.path != c.task.path;
        assert db.tasks[batch[i].id].path == batch[i].task.path;
      }
    }
  }

  class Scheduler {
    const store: S.Store
    const ratio: real
    const conflictDelay: int
    var inFlight: map<nat, Scope>
    var credit: real
    /** Every dispatch so far. */
    ghost var run: seq<Dispatch>

    ghost predicate Valid()
      reads this
    {
      && 0.0 < ratio < 1.0 && PairwiseDisjoint(inFlight)
      && Affordable(0.0, ratio, run) && credit == CreditAfter(0.0, ratio, run) && 0.0 <= credit <= 1.0
    }

    constructor (store: S.Store, ratio: real, conflictDelay: int)
      requires 0.0 < ratio < 1.0
      ensures Valid() && this.store == store && this.ratio == ratio && inFlight == map[] && credit == 0.0
    {
      this.store, this.ratio, this.conflictDelay := store, ratio, conflictDelay;
      inFlight, credit, run := map[], 0.0, [];
    }

    method HasConflict(scope: Scope) returns (conflict: bool)
      ensures conflict == Conflicts(scope, inFlight)
    {
      var rest := inFlight.Keys;
      while rest != {}
        invariant rest <= inFlight.Keys
        invariant forall i :: i in inFlight && i !in rest ==> !Overlaps(scope, inFlight[i])
      {
        var i :| i in rest;
        var meets := Overlap(scope, inFlight[i]);
        if meets {
          return true;
        }
        rest := rest - {i};
      }
      return false;
    }

    method RecordDispatch(source: Source, budgeted: bool)
      requires Valid() && (budgeted ==> source.RetryWork? && CanRetry(credit, ratio))
      modifies this`credit, this`run
      ensures Valid()
      ensures run == old(run) + [if source.FreshWork? then Fresh else if budgeted then Budgeted else Borrowed]
    {
      ghost var d := if source.FreshWork? then Fresh else if budgeted then Budgeted else Borrowed;
      assert (run + [d])[..|run|] == run;
      run := run + [d];
      if source.FreshWork? {
        credit := AfterFresh(credit, ratio);
      } else if budgeted {
        credit := AfterRetry(credit, ratio);
      }
      RetriesArePaidFor(0.0, ratio, run);
    }

    /** retryConflict. */
    method Refund(batch: seq<ClaimedTask>, ghost fates: seq<Fate>, k: nat, dueAt: int) returns (fate: Fate)
      requires store.Valid() && k == |fates| < |batch| && DistinctPaths(batch)
        && Progress(store.tasks, batch, fates, dueAt)
      modifies store`tasks
      ensures store.Valid() && Progress(store.tasks, batch, fates + [fate], dueAt) && !fate.Leased?
    {
      RefundProgress(store.View(), batch, fates, dueAt);
      MarkRetryKeeps(store.View(), batch[k].id, dueAt, true, store.retryLimit);
      var error := store.MarkRetry(batch[k].id, dueAt, true);
      fate := if error.None? then Returned else Stuck;
    }

    /** refundClaimed over the tasks not yet examined: it tries them all. */
    method RefundRest(batch: seq<ClaimedTask>, before: seq<Fate>, dueAt: int) returns (fates: seq<Fate>)
      requires store.Valid() && DistinctPaths(batch) && Progress(store.tasks, batch, before, dueAt)
      modifies store`tasks
      ensures store.Valid() && Progress(store.tasks, batch, fates, dueAt) && |fates| == |batch|
      ensures before <= fates && forall i :: |before| <= i < |fates| ==> !fates[i].Leased?
    {
      fates := before;
      while |fates| < |batch|
        invariant store.Valid() && Progress(store.tasks, batch, fates, dueAt)
        invariant before <= fates && forall i :: |before| <= i < |fates| ==> !fates[i].Leased?
      {
        var fate := Refund(batch, fates, |fates|, dueAt);
        fates := fates + [fate];
      }
    }

    /**
     * Whether this task goes out now; its scope joins the set that excludes the
     * rest, in place of a live entry of its own id exactly if nothing in flight
     * meets its scope any more. A full output takes the scope out again, and with
     * it any entry it replaced.
     */
    method Offer(c: ClaimedTask, accepts: bool, freshExhausted: bool) returns (leased: bool, full: bool)
      requires Valid()
      modifies this`inFlight, this`credit, this`run
      ensures Valid()
      ensures leased <==>
        Admitted(c.source, old(credit), ratio, freshExhausted) && !Conflicts(ScopeFor(c.task), old(inFlight)) && accepts
      ensures leased && c.id in old(inFlight) <==>
        Admitted(c.source, old(credit), ratio, freshExhausted) && Overwrites(old(inFlight), c) && accepts
      ensures leased ==> inFlight == old(inFlight)[c.id := ScopeFor(c.task)]
      ensures !leased ==> run == old(run) && credit == old(credit)
      ensures !leased ==> inFlight == if full then old(inFlight) - {c.id} else old(inFlight)
      ensures full <==>
        Admitted(c.source, old(credit), ratio, freshExhausted) && !Conflicts(ScopeFor(c.task), old(inFlight))
        && !accepts
      ensures leased && c.source.RetryWork? && !freshExhausted ==> run == old(run) + [Budgeted]
    {
      full, leased := false, false;
      var budgeted := c.source.RetryWork? && CanRetry(credit, ratio);
      if c.source.RetryWork? && !budgeted && !freshExhausted {
        return;
      }
      var conflict := HasConflict(ScopeFor(c.task));
      if conflict {
        return;
      }
      DisjointGrows(inFlight, c.id, ScopeFor(c.task));
      inFlight := inFlight[c.id := ScopeFor(c.task)];
      if !accepts {
        inFlight := inFlight - {c.id};
        full := true;
        return;
      }
      RecordDispatch(c.source, budgeted);
      leased := true;
    }

    /** One task of the batch: offered, and refunded unless it went out. */
    method Settle(
      batch: seq<ClaimedTask>, ghost fates: seq<Fate>, k: nat, accepts: bool, freshExhausted: bool, dueAt: int)
      returns (fate: Fate, full: bool)
      requires Valid() && store.Valid() && k == |fates| < |batch|
      requires DistinctPaths(batch) && Progress(store.tasks, batch, fates, dueAt)
      modifies this`inFlight, this`credit, this`run, store`tasks
      ensures Valid() && store.Valid() && Progress(store.tasks, batch, fates + [fate], dueAt)
      ensures fate.Leased? ==> !Conflicts(ScopeFor(batch[k].task), old(inFlight))
      ensures inFlight == AfterOffer(old(inFlight), batch[k], fate, full)
    {
      var leased;
      leased, full := Offer(batch[k], accepts, freshExhausted);
      if leased {
        fate := Leased;
      } else {
        fate := Refund(batch, fates, k, dueAt);
      }
    }

    /**
     * dispatchClaimed, on every exit: each claimed task is leased once, or
     * durably refunded, or stuck behind a newer retry_wait row of its path.
     */
    method DispatchClaimed(batch: seq<ClaimedTask>, accepts: seq<bool>, freshExhausted: bool, now: int)
      returns (fates: seq<Fate>)
      requires Valid() && store.Valid() && AreClaimed(store.tasks, batch) && |accepts| == |batch|
      modifies this`inFlight, this`credit, this`run, store`tasks
      ensures InOrder(old(inFlight), batch, fates, now + conflictDelay) && |fates| == |batch|
    {
      ClaimedPathsAreDistinct(store.tasks, batch);
      fates := ExamineAll(inFlight, batch, accepts, freshExhausted, now + conflictDelay);
    }

    method ExamineAll(
      ghost before: map<nat, Scope>, batch: seq<ClaimedTask>, accepts: seq<bool>, freshExhausted: bool, dueAt: int)
      returns (fates: seq<Fate>)
      requires InOrder(before, batch, [], dueAt) && |accepts| == |batch|
      modifies this`inFlight, this`credit, this`run, store`tasks
      ensures InOrder(before, batch, fates, dueAt) && |fates| == |batch|
    {
      fates := [];
      while |fates| < |batch|
        invariant |fates| <= |batch| && InOrder(before, batch, fates, dueAt)
      {
        fates := Examine(before, batch, fates, accepts[|fates|], freshExhausted, dueAt);
      }
    }

    /** Every task examined so far has met its fate, and the scopes in flight say which were leased. */
    ghost predicate InOrder(before: map<nat, Scope>, batch: seq<ClaimedTask>, fates: seq<Fate>, dueAt: int)
      reads this, store
    {
      && Valid() && store.Valid() && DistinctPaths(batch)
      && Progress(store.tasks, batch, fates, dueAt) && LeasedOnce(before, inFlight, batch, fates)
    }

    /** One turn of the loop; a full output or a refused refund ends it by refunding the rest. */
    method Examine(
      ghost before: map<nat, Scope>, batch: seq<ClaimedTask>, done: seq<Fate>, accepts: bool, freshExhausted: bool,
      dueAt: int)
      returns (fates: seq<Fate>)
      requires InOrder(before, batch, done, dueAt) && |done| < |batch|
      modifies this`inFlight, this`credit, this`run, store`tasks
      ensures InOrder(before, batch, fates, dueAt) && |done| < |fates| <= |batch|
    {
      ghost var mid := inFlight;
      var fate, full := Settle(batch, done, |done|, accepts, freshExhausted, dueAt);
      LeasedOnceNext(before, mid, batch, done, fate, full);
      fates := done + [fate];
      if full || fate.Stuck? {
        var rest := RefundRest(batch, fates, dueAt);
        LeasedOnceRest(before, inFlight, batch, fates, rest);
        fates := rest;
      }
    }

    /** The claimed rows as the store returns them. */
    method Load(ordered: seq<Slot>) returns (batch: seq<ClaimedTask>)
      requires forall i :: 0 <= i < |ordered| ==> ordered[i].id in store.tasks
      ensures batch == Loaded(store.tasks, ordered)
    {
      batch := [];
      for k := 0 to |ordered|
        invariant |batch| == k && forall i :: 0 <= i < k ==>
          batch[i] == ClaimedTask(ordered[i].id, store.tasks[ordered[i].id], ordered[i].source)
      {
        batch := batch + [ClaimedTask(ordered[k].id, store.tasks[ordered[k].id], ordered[k].source)];
      }
    }

    /** The claims of a round, with the rows they returned. */
    method ClaimRound(limit: nat, now: int)
      returns (batch: seq<ClaimedTask>, freshExhausted: bool, ghost freshIds: seq<nat>, ghost retryIds: seq<nat>)
      requires Valid() && store.Valid()
      modifies store`tasks
      ensures store.Valid() && AreClaimed(store.tasks, batch)
      ensures ClaimedInRound(old(store.View()), store.View(), now, limit, freshIds, retryIds, batch)
    {
      var ordered;
      ordered, freshExhausted, freshIds, retryIds := ClaimReady(store, limit, now, credit, ratio);
      RoundGives(old(store.View()), store.View(), now, limit, freshIds, retryIds, ordered);
      batch := Load(ordered);
    }

    /**
     * One round of the loop, claim to dispatch: the rows claimed are ready ones
     * of both sources, at most `limit`, each once; and every one of them is
     * leased once, or refunded, or stuck behind a newer retry row.
     */
    method Round(limit: nat, accepts: seq<bool>, now: int)
      returns (batch: seq<ClaimedTask>, fates: seq<Fate>, ghost claimed: Db, ghost freshIds: seq<nat>,
        ghost retryIds: seq<nat>)
      requires Valid() && store.Valid() && |accepts| >= limit
      modifies this`inFlight, this`credit, this`run, store`tasks
      ensures ClaimedInRound(old(store.View()), claimed, now, limit, freshIds, retryIds, batch)
      ensures |fates| == |batch| && InOrder(old(inFlight), batch, fates, now + conflictDelay)
    {
      var freshExhausted;
      batch, freshExhausted, freshIds, retryIds := ClaimRound(limit, now);
      claimed := store.View();
      fates := DispatchClaimed(batch, accepts[..|batch|], freshExhausted, now);
    }

    /** A consumed completion frees its scope. */
    method Completed(id: nat)
      requires Valid()
      modifies this`inFlight
      ensures Valid() && inFlight == old(inFlight) - {id}
    {
      inFlight := inFlight - {id};
    }
  }

  function Loaded(tasks: map<nat, Task>, ordered: seq<Slot>): seq<ClaimedTask>
    requires forall i :: 0 <= i < |ordered| ==> ordered[i].id in tasks
  {
    seq(|ordered|, i requires 0 <= i < |ordered| => ClaimedTask(ordered[i].id, tasks[ordered[i].id], ordered[i].source))
  }

  /**
   * The batch is what the round's claims took: each row once, and fewer than the
   * limit only when nothing ready is left.
   */
  ghost predicate ClaimedInRound(
    before: Db, claimed: Db, now: int, limit: nat, freshIds: seq<nat>, retryIds: seq<nat>, batch: seq<ClaimedTask>)
  {
    && Claims(before, claimed, now, freshIds, retryIds)
    && |batch| == |freshIds| + |retryIds| <= limit
    && (|batch| < limit ==> Ready(claimed.tasks, now, FreshWork) == {} && Ready(claimed.tasks, now, RetryWork) == {})
    && (forall id :: id in Members(freshIds) + Members(retryIds) <==> Batched(batch, id))
    && (forall i :: 0 <= i < |batch| ==> batch[i].id in claimed.tasks && batch[i].task == claimed.tasks[batch[i].id])
  }

  ghost predicate Batched(batch: seq<ClaimedTask>, id: nat) {
    exists i :: 0 <= i < |batch| && batch[i].id == id
  }

  ghost predicate Ordered(slots: seq<Slot>, id: nat) {
    exists i :: 0 <= i < |slots| && slots[i].id == id
  }

  /** The ids in a merge are those of its sources. */
  lemma {:induction false} MergedIds(slots: seq<Slot>, id: nat)
    ensures Ordered(slots, id) <==> id in Only(slots, FreshWork) || id in Only(slots, RetryWork)
    decreases |slots|
  {
    if slots != [] {
      MergedIds(slots[1..], id);
      if i :| 0 <= i < |slots| && slots[i].id == id && i > 0 {
        assert slots[1..][i - 1].id == id;
      }
      if i :| 0 <= i < |slots| - 1 && slots[1..][i].id == id {
        assert slots[i + 1].id == id;
      }
      assert slots[0].source.FreshWork? || slots[0].source.RetryWork?;
    }
  }

  lemma {:induction false} MergedIdsAreDistinct(slots: seq<Slot>)
    requires NoDuplicates(Only(slots, FreshWork)) && NoDuplicates(Only(slots, RetryWork))
    requires forall id :: !(id in Only(slots, FreshWork) && id in Only(slots, RetryWork))
    ensures forall i, j :: 0 <= i < j < |slots| ==> slots[i].id != slots[j].id
    decreases |slots|
  {
    if slots != [] {
      var rest := slots[1..];
      OnlyRest(slots, FreshWork);
      OnlyRest(slots, RetryWork);
      MergedIdsAreDistinct(rest);
      MergedIds(rest, slots[0].id);
      assert forall i :: 1 <= i < |slots| ==> slots[i] == rest[i - 1];
    }
  }

  lemma OnlyRest(slots: seq<Slot>, source: Source)
    requires slots != [] && NoDuplicates(Only(slots, source))
    ensures NoDuplicates(Only(slots[1..], source)) && forall id :: id in Only(slots[1..], source) ==>
      id in Only(slots, source)
    ensures slots[0].source == source ==> slots[0].id !in Only(slots[1..], source)
  {
    var rest := Only(slots[1..], source);
    if slots[0].source == source {
      assert Only(slots, source) == [slots[0].id] + rest;
      HeadIsApart(slots[0].id, rest);
    } else {
      assert Only(slots, source) == rest;
    }
  }

  lemma HeadIsApart(head: nat, rest: seq<nat>)
    requires NoDuplicates([head] + rest)
    ensures head !in rest && NoDuplicates(rest)
  {
    var all := [head] + rest;
    forall k | 0 <= k < |rest|
      ensures rest[k] != head
    {
      assert all[0] != all[k + 1];
    }
    forall i, j | 0 <= i < j < |rest|
      ensures rest[i] != rest[j]
    {
      assert all[i + 1] != all[j + 1];
    }
  }

  /** What a claim leaves for dispatch: rows in flight, as the store has them, each once. */
  lemma RoundIsClaimed(before: Db, claimed: Db, now: int, freshIds: seq<nat>, retryIds: seq<nat>, ordered: seq<Slot>)
    requires Claims(before, claimed, now, freshIds, retryIds)
    requires Only(ordered, FreshWork) == freshIds && Only(ordered, RetryWork) == retryIds
    ensures forall i :: 0 <= i < |ordered| ==> ordered[i].id in claimed.tasks
    ensures AreClaimed(claimed.tasks, Loaded(claimed.tasks, ordered))
    ensures forall id :: id in Members(freshIds) + Members(retryIds) <==> Ordered(ordered, id)
  {
    forall id
      ensures !(id in freshIds && id in retryIds)
      ensures id in Members(freshIds) + Members(retryIds) <==> Ordered(ordered, id)
    {
      SourcesAreDisjoint(before.tasks, now, id);
      MergedIds(ordered, id);
    }
    MergedIdsAreDistinct(ordered);
    forall i | 0 <= i < |ordered|
      ensures ordered[i].id in claimed.tasks && claimed.tasks[ordered[i].id].state.InFlight?
    {
      assert Ordered(ordered, ordered[i].id);
      assert ordered[i].id in Members(freshIds) + Members(retryIds);
    }
  }

  lemma RoundGives(
    before: Db, claimed: Db, now: int, limit: nat, freshIds: seq<nat>, retryIds: seq<nat>, ordered: seq<Slot>)
    requires Claims(before, claimed, now, freshIds, retryIds)
    requires Only(ordered, FreshWork) == freshIds && Only(ordered, RetryWork) == retryIds
    requires |ordered| == |freshIds| + |retryIds| <= limit
    requires |ordered| < limit ==>
      Ready(claimed.tasks, now, FreshWork) == {} && Ready(claimed.tasks, now, RetryWork) == {}
    ensures forall i :: 0 <= i < |ordered| ==> ordered[i].id in claimed.tasks
    ensures AreClaimed(claimed.tasks, Loaded(claimed.tasks, ordered))
    ensures ClaimedInRound(before, claimed, now, limit, freshIds, retryIds, Loaded(claimed.tasks, ordered))
  {
    RoundIsClaimed(before, claimed, now, freshIds, retryIds, ordered);
    var batch := Loaded(claimed.tasks, ordered);
    forall id
      ensures Batched(batch, id) <==> Ordered(ordered, id)
    {
      if i :| 0 <= i < |batch| && batch[i].id == id {
        assert ordered[i].id == id;
      }
      if i :| 0 <= i < |ordered| && ordered[i].id == id {
        assert batch[i].id == id;
      }
    }
  }

  lemma DisjointGrows(inFlight: map<nat, Scope>, id: nat, scope: Scope)
    requires PairwiseDisjoint(inFlight) && !Conflicts(scope, inFlight)
    ensures PairwiseDisjoint(inFlight[id := scope])
  {
    forall j | j in inFlight
      ensures !Overlaps(scope, inFlight[j]) && !Overlaps(inFlight[j], scope)
    {
      OverlapIsSymmetric(scope, inFlight[j]);
    }
  }

  /**
   * The scopes in flight are those from before and, once each, those of the
   * leased tasks; an entry goes only with the row id of a task not leased.
   */
  ghost predicate LeasedOnce(
    before: map<nat, Scope>, after: map<nat, Scope>, batch: seq<ClaimedTask>, fates: seq<Fate>)
  {
    && |fates| <= |batch|
    && (forall i :: 0 <= i < |fates| && fates[i].Leased? ==>
          batch[i].id in after && after[batch[i].id] == ScopeFor(batch[i].task))
    && (forall id :: id in after ==>
          (id in before && after[id] == before[id])
            || exists i :: 0 <= i < |fates| && fates[i].Leased? && batch[i].id == id)
    && (forall id :: id in before && id !in after ==>
          exists i :: 0 <= i < |fates| && !fates[i].Leased? && batch[i].id == id)
  }

  function AfterOffer(inFlight: map<nat, Scope>, c: ClaimedTask, fate: Fate, full: bool): map<nat, Scope> {
    if fate.Leased? then inFlight[c.id := ScopeFor(c.task)] else if full then inFlight - {c.id} else inFlight
  }

  lemma LeasedOnceNext(
    before: map<nat, Scope>, mid: map<nat, Scope>, batch: seq<ClaimedTask>, fates: seq<Fate>, fate: Fate, full: bool)
    requires DistinctPaths(batch) && |fates| < |batch| && LeasedOnce(before, mid, batch, fates)
    ensures LeasedOnce(before, AfterOffer(mid, batch[|fates|], fate, full), batch, fates + [fate])
  {
    var c := batch[|fates|];
    var after := AfterOffer(mid, c, fate, full);
    var longer := fates + [fate];
    forall i | 0 <= i < |longer| && longer[i].Leased?
      ensures batch[i].id in after && after[batch[i].id] == ScopeFor(batch[i].task)
    {
      assert i < |fates| ==> fates[i].Leased? && batch[i].id != c.id;
    }
    forall id | id in after && !(id in before && after[id] == before[id])
      ensures exists i :: 0 <= i < |longer| && longer[i].Leased? && batch[i].id == id
    {
      if fate.Leased? && id == c.id {
        assert longer[|fates|].Leased?;
      } else {
        var i :| 0 <= i < |fates| && fates[i].Leased? && batch[i].id == id;
        assert longer[i].Leased?;
      }
    }
    forall id | id in before && id !in after
      ensures exists i :: 0 <= i < |longer| && !longer[i].Leased? && batch[i].id == id
    {
      if id in mid {
        assert id == c.id && !longer[|fates|].Leased?;
      } else {
        var i :| 0 <= i < |fates| && !fates[i].Leased? && batch[i].id == id;
        assert !longer[i].Leased?;
      }
    }
  }

  lemma LeasedOnceRest(
    before: map<nat, Scope>, after: map<nat, Scope>, batch: seq<ClaimedTask>, fates: seq<Fate>, rest: seq<Fate>)
    requires LeasedOnce(before, after, batch, fates) && fates <= rest && |rest| <= |batch|
    requires forall i :: |fates| <= i < |rest| ==> !rest[i].Leased?
    ensures LeasedOnce(before, after, batch, rest)
  {
    forall id | id in after && !(id in before && after[id] == before[id])
      ensures exists i :: 0 <= i < |rest| && rest[i].Leased? && batch[i].id == id
    {
      var i :| 0 <= i < |fates| && fates[i].Leased? && batch[i].id == id;
      assert rest[i].Leased?;
    }
    forall id | id in before && id !in after
      ensures exists i :: 0 <= i < |rest| && !rest[i].Leased? && batch[i].id == id
    {
      var i :| 0 <= i < |fates| && !fates[i].Leased? && batch[i].id == id;
      assert !rest[i].Leased?;
    }
  }
}
