/** What becomes of a request: its own operation is left pending, or a newer pending row outranks it. */
module QueueLanding {
  import opened Basics
  import opened Catalog
  import opened Paths
  import opened Queue
  import opened QueueInvariant
  import opened QueueLeases

  /** The row stands for this very request: operation, source, generation and anchor, at least as urgent. */
  predicate Carries(t: Task, e: Request) {
    && t.op == e.op && t.oldPath == e.oldPath && t.generation == e.generation
    && (e.fileId.Some? ==> t.fileId == e.fileId) && t.priority <= e.priority && t.dueAt <= e.dueAt
  }

  ghost predicate Pends(tasks: map<nat, Task>, e: Request) {
    exists p :: InSlot(tasks, p, e.path, Pending) && Carries(tasks[p], e)
  }

  ghost predicate Outranked(tasks: map<nat, Task>, path: Path, generation: int) {
    exists p :: InSlot(tasks, p, path, Pending) && tasks[p].generation > generation
  }

  /** The row's work is as it was; only its urgency may have changed. */
  predicate SameWorkAs(a: Task, b: Task) {
    a == b.(priority := a.priority, dueAt := a.dueAt)
  }

  /** A request is left pending exactly when no pending row of its path is newer; otherwise it is dropped. */
  lemma EnqueueLands(db: Db, e: Request)
    requires UniqueSlots(db.tasks) && Enqueue(db, e).Committed?
    ensures Pends(Enqueue(db, e).db.tasks, e) <==> !Outranked(db.tasks, e.path, e.generation)
    ensures Outranked(db.tasks, e.path, e.generation) ==>
      && Enqueue(db, e).db.tasks.Keys == db.tasks.Keys
      && forall i :: i in db.tasks ==> SameWorkAs(Enqueue(db, e).db.tasks[i], db.tasks[i])
  {
    var p := EnqueueShape(db, e);
    var after := Enqueue(db, e).db.tasks;
    assert InSlot(after, p, e.path, Pending);
    forall q | InSlot(after, q, e.path, Pending)
      ensures q == p
    {
      assert q != p ==> InSlot(db.tasks, q, e.path, Pending);
    }
    if p in db.tasks {
      forall q | InSlot(db.tasks, q, e.path, Pending)
        ensures q == p
      {
      }
    }
  }

  /** Rows at other paths are not touched. */
  lemma EnqueueUntouched(db: Db, e: Request, p: Path)
    requires p != e.path
    ensures UntouchedAt(db.tasks, After(db, Enqueue(db, e)).tasks, p)
  {
    if ValidRequest(e) {
      var q := EnqueueShape(db, e);
    }
  }

  lemma PendsStays(before: map<nat, Task>, after: map<nat, Task>, e: Request)
    requires UntouchedAt(before, after, e.path)
    ensures Pends(before, e) <==> Pends(after, e)
    ensures forall g :: Outranked(before, e.path, g) <==> Outranked(after, e.path, g)
  {
    forall p
      ensures InSlot(before, p, e.path, Pending) <==> InSlot(after, p, e.path, Pending)
      ensures InSlot(before, p, e.path, Pending) ==> before[p] == after[p]
    {
    }
    if p :| InSlot(before, p, e.path, Pending) && Carries(before[p], e) {
      assert InSlot(after, p, e.path, Pending) && Carries(after[p], e);
    }
    if p :| InSlot(after, p, e.path, Pending) && Carries(after[p], e) {
      assert InSlot(before, p, e.path, Pending) && Carries(before[p], e);
    }
    forall g
      ensures Outranked(before, e.path, g) <==> Outranked(after, e.path, g)
    {
      if p :| InSlot(before, p, e.path, Pending) && before[p].generation > g {
        assert InSlot(after, p, e.path, Pending) && after[p].generation > g;
      }
      if p :| InSlot(after, p, e.path, Pending) && after[p].generation > g {
        assert InSlot(before, p, e.path, Pending) && before[p].generation > g;
      }
    }
  }

  // ----------------------------------------------------------------- watch events

  /** The catalog row that pays for an event is more than one generation behind its path's pending row. */
  ghost predicate Trails(db: Db, e: Event) {
    Payer(db, e).Some? && Payer(db, e).value in db.files
    && Outranked(db.tasks, e.path, db.files[Payer(db, e).value].generation + 1)
  }

  /**
   * A committed event raises the catalog row that pays for it by one, and its
   * own operation is what is left pending, exactly unless that row trails.
   */
  lemma EventLands(db: Db, e: Event, limit: nat)
    requires Inv(db, limit) && EnqueueEvent(db, e).Committed?
    ensures Allocate(db, e).Allocated? && Becomes(db, e, Allocate(db, e).request)
    ensures Pends(EnqueueEvent(db, e).db.tasks, Allocate(db, e).request) <==> !Trails(db, e)
    ensures Trails(db, e) ==> forall i :: i in db.tasks ==>
      i in EnqueueEvent(db, e).db.tasks && SameWorkAs(EnqueueEvent(db, e).db.tasks[i], db.tasks[i])
    ensures Allocate(db, e).request.fileId == Payer(db, e)
    ensures Payer(db, e).Some? ==>
      Payer(db, e).value in db.files && EnqueueEvent(db, e).db.files == Bump(db, Payer(db, e).value).files
  {
    AllocationIs(db, e, limit);
    var a := Allocate(db, e);
    EnqueueLands(a.db, a.request);
    EnqueueFrame(a.db, a.request);
    if p :| InSlot(db.tasks, p, e.path, Pending) && db.tasks[p].generation > a.request.generation {
      EventStrictlyNewer(db, e, p, limit);
    }
  }

  /**
   * While nothing at its path runs ahead of its catalog row, an event is never
   * dropped for work of the row that pays for it.
   */
  lemma OwnRowLands(db: Db, e: Event, limit: nat)
    requires Inv(db, limit) && AnchoredAt(db, e.path) && EnqueueEvent(db, e).Committed?
    requires forall p :: InSlot(db.tasks, p, e.path, Pending) ==> db.tasks[p].fileId == Payer(db, e)
    ensures Allocate(db, e).Allocated? && Pends(EnqueueEvent(db, e).db.tasks, Allocate(db, e).request)
  {
    EventLands(db, e, limit);
    forall p | InSlot(db.tasks, p, e.path, Pending) && Payer(db, e).Some?
      ensures db.tasks[p].generation <= db.files[Payer(db, e).value].generation
    {
      assert AnchorOk(db.tasks[p], db.files);
    }
  }

  /** Scanner work is never outranked: it is queued only when nothing pending covers it. */
  lemma ReconcileLands(db: Db, o: Observation, limit: nat)
    requires Inv(db, limit) && Reconcile(db, o).ScanEnqueued?
    ensures Pends(Reconcile(db, o).db.tasks, ScanRequest(db, o))
  {
    var mid := if o.seen.Some? then Bump(db, o.seen.value.fileId) else db;
    EnqueueLands(mid, ScanRequest(db, o));
    forall p | InSlot(db.tasks, p, o.path, Pending)
      ensures db.tasks[p].generation <= ScanRequest(db, o).generation
    {
      assert RowOk(db.tasks[p], limit);
      ScannerStrictlyNewer(db, o, p);
    }
  }

  // ------------------------------------------------------------ expanded children

  /** Where a child of an expanded directory ends up. */
  function Destination(files: map<nat, File>, child: Child): Path
    requires child.fileId in files
  {
    if child.destination.Some? then child.destination.value else files[child.fileId].path
  }

  /** Distinct catalog rows bound for distinct paths. */
  ghost predicate Apart(files: map<nat, File>, children: seq<Child>) {
    && (forall i :: 0 <= i < |children| ==> children[i].fileId in files)
    && (forall i, j :: 0 <= i < j < |children| ==>
          children[i].fileId != children[j].fileId
            && Destination(files, children[i]) != Destination(files, children[j]))
  }

  lemma ListedApart(files: map<nat, File>, source: Path, destination: Option<Path>, children: seq<Child>)
    requires UniquePaths(files) && Lists(files, source, destination, children)
    ensures Apart(files, children)
  {
    forall i, j | 0 <= i < j < |children|
      ensures Destination(files, children[i]) != Destination(files, children[j])
    {
      assert IsChild(files, source, destination, children[i]) && IsChild(files, source, destination, children[j]);
      var p, q := files[children[i].fileId].path, files[children[j].fileId].path;
      assert p != q;
      if destination.Some? {
        RebasedApart(source, destination.value, p, q);
      }
    }
  }

  lemma ExpandOneIs(db: Db, child: Child, priority: int)
    requires ExpandOne(db, child, priority).Committed?
    ensures child.fileId in db.files && ChildRequest(db, child, priority).path == Destination(db.files, child)
    ensures ExpandOne(db, child, priority).db.files == Bump(db, child.fileId).files
    ensures ExpandOne(db, child, priority).db.dead == db.dead
    ensures forall p :: p != Destination(db.files, child) ==>
      UntouchedAt(db.tasks, ExpandOne(db, child, priority).db.tasks, p)
  {
    var request := ChildRequest(db, child, priority);
    EnqueueFrame(Bump(db, child.fileId), request);
    forall p | p != Destination(db.files, child)
      ensures UntouchedAt(db.tasks, ExpandOne(db, child, priority).db.tasks, p)
    {
      EnqueueUntouched(Bump(db, child.fileId), request, p);
    }
  }

  lemma ApartNext(db: Db, children: seq<Child>, priority: int)
    requires children != [] && Apart(db.files, children) && ExpandOne(db, children[0], priority).Committed?
    ensures var files := ExpandOne(db, children[0], priority).db.files;
      && Apart(files, children[1..])
      && (forall i :: 1 <= i < |children| ==>
            && children[i].fileId in files && files[children[i].fileId] == db.files[children[i].fileId]
            && Destination(files, children[i]) == Destination(db.files, children[i]))
  {
    ExpandOneIs(db, children[0], priority);
    var files := ExpandOne(db, children[0], priority).db.files;
    assert forall i :: 1 <= i < |children| ==> files[children[i].fileId] == db.files[children[i].fileId];
    assert forall i :: 0 <= i < |children| - 1 ==> children[1..][i] == children[i + 1];
  }

  lemma UntouchedChain(a: map<nat, Task>, b: map<nat, Task>, c: map<nat, Task>, p: Path)
    requires UntouchedAt(a, b, p) && UntouchedAt(b, c, p)
    ensures UntouchedAt(a, c, p)
  {
  }

  /** An expansion touches only its children's destinations. */
  lemma {:induction false} ExpandAllUntouched(db: Db, children: seq<Child>, priority: int, p: Path)
    requires Apart(db.files, children) && ExpandAll(db, children, priority).Committed?
    requires forall i :: 0 <= i < |children| ==> Destination(db.files, children[i]) != p
    ensures UntouchedAt(db.tasks, ExpandAll(db, children, priority).db.tasks, p)
    decreases |children|
  {
    if children != [] {
      var mid := ExpandOne(db, children[0], priority).db;
      ExpandOneIs(db, children[0], priority);
      ApartNext(db, children, priority);
      assert forall i :: 0 <= i < |children| - 1 ==> children[1..][i] == children[i + 1];
      ExpandAllUntouched(mid, children[1..], priority, p);
      UntouchedChain(db.tasks, mid.tasks, ExpandAll(db, children, priority).db.tasks, p);
    }
  }

  ghost predicate IsAmong(children: seq<Child>, f: nat) {
    exists i :: 0 <= i < |children| && children[i].fileId == f
  }

  /** It raises each child's row by one, hides it, and touches no other row of the catalog. */
  lemma {:induction false} ExpandAllRaises(db: Db, children: seq<Child>, priority: int)
    requires Apart(db.files, children) && ExpandAll(db, children, priority).Committed?
    ensures var after := ExpandAll(db, children, priority).db;
      && after.dead == db.dead && after.files.Keys == db.files.Keys
      && forall f :: f in db.files ==> after.files[f] == if IsAmong(children, f) then Bump(db, f).files[f]
        else db.files[f]
    decreases |children|
  {
    if children != [] {
      var mid := ExpandOne(db, children[0], priority).db;
      ExpandOneIs(db, children[0], priority);
      ApartNext(db, children, priority);
      ExpandAllRaises(mid, children[1..], priority);
      forall f | f in db.files
        ensures IsAmong(children, f) <==> f == children[0].fileId || IsAmong(children[1..], f)
        ensures f == children[0].fileId ==> !IsAmong(children[1..], f)
      {
        assert forall i :: 0 <= i < |children| - 1 ==> children[1..][i] == children[i + 1];
        if i :| 0 <= i < |children| && children[i].fileId == f && i > 0 {
          assert children[1..][i - 1].fileId == f;
        }
      }
    }
  }

  lemma ChildLands(db: Db, child: Child, priority: int)
    requires UniqueSlots(db.tasks) && ExpandOne(db, child, priority).Committed?
    ensures child.fileId in db.files
    ensures Pends(ExpandOne(db, child, priority).db.tasks, ChildRequest(db, child, priority))
      <==> !Outranked(db.tasks, Destination(db.files, child), db.files[child.fileId].generation + 1)
    ensures UniqueSlots(ExpandOne(db, child, priority).db.tasks)
  {
    EnqueueLands(Bump(db, child.fileId), ChildRequest(db, child, priority));
    EnqueueUnique(Bump(db, child.fileId), ChildRequest(db, child, priority));
  }

  lemma EnqueueUnique(db: Db, e: Request)
    requires UniqueSlots(db.tasks)
    ensures UniqueSlots(After(db, Enqueue(db, e)).tasks)
  {
    if ValidRequest(e) {
      var p := EnqueueShape(db, e);
      var after := Enqueue(db, e).db.tasks;
      forall i, j | i in after && j in after && after[i].path == after[j].path && after[i].state == after[j].state
        ensures i == j
      {
        assert i != p ==> InSlot(db.tasks, i, after[i].path, after[i].state);
        assert j != p ==> InSlot(db.tasks, j, after[j].path, after[j].state);
      }
    }
  }

  /**
   * Each child's own remove or move is what is left pending at its destination,
   * exactly unless a pending row there is more than one generation ahead of the
   * child's catalog row.
   */
  lemma {:induction false} ExpansionLands(db: Db, children: seq<Child>, priority: int, i: nat)
    requires UniqueSlots(db.tasks) && Apart(db.files, children) && i < |children|
    requires ExpandAll(db, children, priority).Committed?
    ensures Pends(ExpandAll(db, children, priority).db.tasks, ChildRequest(db, children[i], priority))
      <==> !Outranked(db.tasks, Destination(db.files, children[i]), db.files[children[i].fileId].generation + 1)
    decreases |children|
  {
    var mid := ExpandOne(db, children[0], priority).db;
    var after := ExpandAll(db, children, priority).db;
    var d := Destination(db.files, children[i]);
    ExpandOneIs(db, children[0], priority);
    ApartNext(db, children, priority);
    ChildLands(db, children[0], priority);
    assert forall k :: 0 <= k < |children| - 1 ==> children[1..][k] == children[k + 1];
    if i == 0 {
      ExpandAllUntouched(mid, children[1..], priority, d);
      PendsStays(mid.tasks, after.tasks, ChildRequest(db, children[0], priority));
    } else {
      ExpansionLands(mid, children[1..], priority, i - 1);
      LaterChildWaits(db, children, priority, i);
    }
  }

  /** The first child's turn changes nothing for a later one. */
  lemma LaterChildWaits(db: Db, children: seq<Child>, priority: int, i: nat)
    requires Apart(db.files, children) && 0 < i < |children| && ExpandOne(db, children[0], priority).Committed?
    ensures var mid := ExpandOne(db, children[0], priority).db;
      && children[i].fileId in mid.files && mid.files[children[i].fileId] == db.files[children[i].fileId]
      && ChildRequest(mid, children[i], priority) == ChildRequest(db, children[i], priority)
      && Destination(mid.files, children[i]) == Destination(db.files, children[i])
    ensures var mid := ExpandOne(db, children[0], priority).db;
      var d := Destination(db.files, children[i]);
      forall g :: Outranked(mid.tasks, d, g) <==> Outranked(db.tasks, d, g)
  {
    ExpandOneIs(db, children[0], priority);
    ApartNext(db, children, priority);
    PendsStays(db.tasks, ExpandOne(db, children[0], priority).db.tasks, ChildRequest(db, children[i], priority));
  }

  /** Every catalog row below the directory is among the children, so none is forgotten. */
  lemma DirectoryLands(db: Db, id: nat, children: seq<Child>, f: nat, limit: nat) returns (child: Child)
    requires Inv(db, limit) && ExpandDirectory(db, id, children).Committed? && id in db.tasks && f in db.files
    requires Lists(db.files, DirectorySource(db.tasks[id]), DirectoryDestination(db.tasks[id]), children)
    requires Inside(DirectorySource(db.tasks[id]), db.files[f].path)
    ensures child in children && child.fileId == f
    ensures Pends(ExpandDirectory(db, id, children).db.tasks, ChildRequest(db, child, db.tasks[id].priority))
      <==> !Outranked(db.tasks, Destination(db.files, child), db.files[f].generation + 1)
  {
    var t := db.tasks[id];
    ListedApart(db.files, DirectorySource(t), DirectoryDestination(t), children);
    var i :| 0 <= i < |children| && children[i].fileId == f;
    ExpansionLands(db, children, t.priority, i);
    var expanded := ExpandAll(db, children, t.priority).db;
    child := children[i];
    DonePends(expanded, id, ChildRequest(db, child, t.priority));
  }

  /** Finishing a task leaves pending work alone. */
  lemma DonePends(db: Db, id: nat, e: Request)
    requires MarkDone(db, id, true).Committed?
    ensures Pends(db.tasks, e) <==> Pends(MarkDone(db, id, true).db.tasks, e)
  {
    var after := MarkDone(db, id, true).db.tasks;
    if p :| InSlot(db.tasks, p, e.path, Pending) && Carries(db.tasks[p], e) {
      assert InSlot(after, p, e.path, Pending) && Carries(after[p], e);
    }
    if p :| InSlot(after, p, e.path, Pending) && Carries(after[p], e) {
      assert InSlot(db.tasks, p, e.path, Pending) && Carries(db.tasks[p], e);
    }
  }

  // ----------------------------------------------------- upgrades and redrives

  /** A model upgrade hides each candidate; its re-embedding is left pending unless newer work outranks it. */
  lemma UpgradeLands(db: Db, f: nat, model: string, priority: int)
    requires UniqueSlots(db.tasks) && UpgradeOne(db, f, model, priority).Committed?
    requires f in db.files && UpgradeCandidate(db.files[f], model)
    ensures var after := UpgradeOne(db, f, model, priority).db;
      && after.files == db.files[f := UpgradedFile(db.files[f])]
      && after.files[f].status.Indexed? && !Visible(after.files[f])
        && after.files[f].generation == db.files[f].generation + 1
      && (Pends(after.tasks, UpgradeRequest(db.files[f], f, priority))
          <==> !Outranked(db.tasks, db.files[f].path, db.files[f].generation + 1))
  {
    var mid := db.(files := db.files[f := UpgradedFile(db.files[f])]);
    EnqueueLands(mid, UpgradeRequest(db.files[f], f, priority));
    EnqueueFrame(mid, UpgradeRequest(db.files[f], f, priority));
  }

  function RedriveRequest(db: Db, f: nat, priority: int): Request
    requires f in db.dead && f in db.files
  {
    Request(Some(f), db.dead[f].path, Upsert, None, db.files[f].generation, priority, 0)
  }

  /**
   * A redrive trades a current letter for its work, unless newer work is pending; a
   * superseded letter stays as evidence.
   */
  lemma RedriveLands(db: Db, f: nat, priority: int)
    requires UniqueSlots(db.tasks) && RedriveOne(db, f, priority).Committed?
    ensures f in db.dead && f in db.files
    ensures var after := RedriveOne(db, f, priority).db;
      if db.files[f].generation > db.dead[f].generation then after == db
      else
        && f !in after.dead && after.files[f].generation == db.files[f].generation && !Visible(after.files[f])
        && (Pends(after.tasks, RedriveRequest(db, f, priority))
            <==> !Outranked(db.tasks, db.dead[f].path, db.files[f].generation))
  {
    if db.files[f].generation <= db.dead[f].generation {
      EnqueueLands(db, RedriveRequest(db, f, priority));
    }
  }
}
