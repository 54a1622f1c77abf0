/** The snapshot race is real: a root added under a dispatch can be forgotten. */
module RootsGap {
  import opened Basics
  import opened Roots
  import opened RootsSafety

  ghost predicate Reachable(n: Net) {
    exists states, steps :: Run(states, steps) && states[|steps|] == n
  }

  lemma Follow(n: Net, step: Step, after: Net)
    requires Reachable(n) && CanStep(n, step) && Next(n, step) == after
    ensures Reachable(after)
  {
    var states, steps :| Run(states, steps) && states[|steps|] == n;
    assert Run(states + [after], steps + [step]);
  }

  /** At rest, with the root dirty and nothing left that would ever look at it. */
  ghost predicate Forgotten(n: Net, p: Path) {
    && n.loop.Resting? && p in n.roots && n.roots[p].dirty && !n.roots[p].removing
    && n.pending == map[] && n.works == map[] && n.notices == map[]
  }

  lemma ForgottenIsUntracked(n: Net, p: Path)
    requires Forgotten(n, p)
    ensures !DirtyIsTracked(n)
  {
    assert !TrackedAt(n, p);
  }

  /** The watcher adds a root and announces it while the scanner holds a snapshot without it. */
  lemma AnnouncedUnderSnapshot(p: Path, actor: nat) returns (n: Net)
    ensures Reachable(n) && n.loop == Taking(map[]) && n.roots == map[p := Root(1, true, 1, false)]
    ensures n.pending == map[Id(p, 1) := Queued(DirtyMark, None)] && n.works == map[] && n.notices == map[]
  {
    var none: seq<Step> := [];
    assert Run([START], none) && [START][|none|] == START;
    n := START.(loop := Taking(map[]));
    Follow(START, TakeSnapshot, n);
    var added := Next(n, AddRoot(actor, p));
    Follow(n, AddRoot(actor, p), added);
    var located := Next(added, FindRoot(actor));
    Follow(added, FindRoot(actor), located);
    n := Next(located, Insert(actor));
    Follow(located, Insert(actor), n);
  }

  predicate Poised(n: Net, p: Path) {
    && n.loop == Taking(map[]) && n.roots == map[p := Root(1, true, 1, false)]
    && n.pending == map[Id(p, 1) := Queued(DirtyMark, None)] && n.works == map[] && n.notices == map[]
  }

  lemma TakeForgets(n: Net, p: Path, now: int)
    requires Poised(n, p)
    ensures var taken := Next(n, CommitTake(now, map[]));
      && taken.loop.Rounding? && taken.works == map[] && taken.pending == map[] && taken.roots == n.roots
        && taken.notices == map[]
    ensures LosesRoot(n, CommitTake(now, map[]))
  {
    assert LosesAt(n, CommitTake(now, map[]), p);
    assert DispatchedWorks(n.pending, map[], now) == map[];
  }

  /** Every root can be forgotten this way, until the next periodic scan. */
  lemma RootCanBeForgotten(p: Path, actor: nat, now: int)
    ensures exists before: Net, n: Net ::
      && Reachable(before) && CanStep(before, CommitTake(now, map[])) && LosesRoot(before, CommitTake(now, map[]))
      && Reachable(n) && Forgotten(n, p) && !DirtyIsTracked(n)
  {
    var marked := AnnouncedUnderSnapshot(p, actor);
    TakeForgets(marked, p, now);
    var taken := Next(marked, CommitTake(now, map[]));
    Follow(marked, CommitTake(now, map[]), taken);
    var resting := taken.(loop := Resting);
    Follow(taken, EndRound, resting);
    ForgottenIsUntracked(resting, p);
  }

  // ------------------------------------------------------- dirtied under a dispatch

  /** The root is clean and nothing is going on. */
  predicate Quiet(n: Net, p: Path) {
    && n.loop.Resting? && n.roots == map[p := Root(1, false, 1, false)] && n.blocked == {}
    && n.pending == map[] && n.works == map[] && n.notices == map[]
  }

  /** The root is queued for a scan. */
  predicate Waiting(n: Net, p: Path, root: Root, trigger: Trigger) {
    && n.loop.Resting? && n.roots == map[p := root] && n.blocked == {}
    && n.pending == map[Id(p, root.epoch) := Queued(trigger, None)] && n.works == map[] && n.notices == map[]
  }

  lemma AddedRoot(p: Path, actor: nat) returns (n: Net)
    ensures Reachable(n) && Waiting(n, p, Root(1, true, 1, false), DirtyMark)
  {
    var none: seq<Step> := [];
    assert Run([START], none) && [START][|none|] == START;
    var added := Next(START, AddRoot(actor, p));
    Follow(START, AddRoot(actor, p), added);
    var located := Next(added, FindRoot(actor));
    Follow(added, FindRoot(actor), located);
    n := Next(located, Insert(actor));
    Follow(located, Insert(actor), n);
  }

  /** The only root of a round, at some phase of its scan. */
  predicate Scanned(n: Net, id: Id, root: Root, w: Work) {
    && n.loop.Rounding? && n.roots == map[id.path := root] && id.epoch == root.epoch && n.blocked == {}
    && n.works == map[id := w] && n.pending == map[] && n.notices == map[]
  }

  lemma ScanEnds(n: Net, id: Id, root: Root, w: Work) returns (after: Net)
    requires Reachable(n) && Scanned(n, id, root, w) && w.phase.Dispatched?
    ensures Reachable(after) && Scanned(after, id, root, w.(phase := Judged(root.generation)))
  {
    var started := Next(n, Register(id));
    Follow(n, Register(id), started);
    var finished := Next(started, Finish(id, ScanOk));
    Follow(started, Finish(id, ScanOk), finished);
    after := Next(finished, Judge(id));
    Follow(finished, Judge(id), after);
  }

  /** A dispatched scan that runs through: started, finished, judged and acknowledged. */
  lemma ScanThrough(n: Net, id: Id, root: Root, w: Work) returns (after: Net)
    requires Reachable(n) && Scanned(n, id, root, w) && w.phase.Dispatched?
    requires w.dirty ==> root.generation == w.generation
    ensures Reachable(after) && after.loop.Resting? && after.blocked == {}
    ensures after.roots == map[id.path := if w.dirty then root.(dirty := false) else root]
    ensures after.pending == map[] && after.works == map[] && after.notices == map[]
  {
    var judged := ScanEnds(n, id, root, w);
    var acknowledged := Next(judged, Acknowledge(id, false));
    Follow(judged, Acknowledge(id, false), acknowledged);
    after := Next(acknowledged, EndRound);
    Follow(acknowledged, EndRound, after);
  }

  lemma CleanedRoot(p: Path, actor: nat, now: int) returns (n: Net)
    ensures Reachable(n) && Quiet(n, p)
  {
    var queued := AddedRoot(p, actor);
    var taking := Next(queued, TakeSnapshot);
    Follow(queued, TakeSnapshot, taking);
    var taken := Next(taking, CommitTake(now, map[]));
    Follow(taking, CommitTake(now, map[]), taken);
    var root := Root(1, true, 1, false);
    assert Ready(map[p := root], Id(p, 1), Queued(DirtyMark, None), now);
    n := ScanThrough(taken, Id(p, 1), root, Work(true, 1, DirtyMark, Dispatched, false));
  }

  /** The periodic scan queues the clean root. */
  lemma PeriodicRoot(p: Path, actor: nat, now: int) returns (n: Net)
    ensures Reachable(n) && Waiting(n, p, Root(1, false, 1, false), Periodic)
  {
    var quiet := CleanedRoot(p, actor, now);
    var read := Next(quiet, ReadAll(Periodic));
    Follow(quiet, ReadAll(Periodic), read);
    var listed := read.loop.listed;
    assert p in listed && IdOf(listed, p) == Id(p, 1) && Id(p, 1) in IdsOf(listed);
    n := Next(read, CommitAll);
    Follow(read, CommitAll, n);
  }

  /** A loss is recorded and queued while the scanner holds a snapshot that shows the root clean. */
  lemma DirtiedUnderSnapshot(p: Path, actor: nat, now: int) returns (n: Net)
    ensures Reachable(n) && n.loop == Taking(map[p := Root(1, false, 1, false)])
      && n.roots == map[p := Root(1, true, 2, false)]
    ensures n.pending == map[Id(p, 1) := Queued(DirtyMark, None)] && n.works == map[] && n.notices == map[]
      && n.blocked == {}
  {
    var queued := PeriodicRoot(p, actor, now);
    var taking := Next(queued, TakeSnapshot);
    Follow(queued, TakeSnapshot, taking);
    var lost := Next(taking, Loss(actor, p));
    Follow(taking, Loss(actor, p), lost);
    var located := Next(lost, FindRoot(actor));
    Follow(lost, FindRoot(actor), located);
    n := Next(located, Insert(actor));
    Follow(located, Insert(actor), n);
  }

  /** The scan is dispatched as if the root were clean, and afterwards nothing clears its mark. */
  lemma DirtiedRootCanBeForgotten(p: Path, actor: nat, now: int)
    ensures exists before: Net, n: Net ::
      && Reachable(before) && CanStep(before, CommitTake(now, map[])) && LosesRoot(before, CommitTake(now, map[]))
      && p in before.roots && Lists(before.loop.taken, IdOf(before.roots, p))
      && Reachable(n) && Forgotten(n, p) && !DirtyIsTracked(n)
  {
    var marked := DirtiedUnderSnapshot(p, actor, now);
    var id := Id(p, 1);
    assert Ready(marked.loop.taken, id, marked.pending[id], now);
    assert Misses(marked, IdOf(marked.roots, p), now) && !Announced(marked, id);
    assert LosesAt(marked, CommitTake(now, map[]), p);
    var taken := Next(marked, CommitTake(now, map[]));
    Follow(marked, CommitTake(now, map[]), taken);
    var n := ScanThrough(taken, id, Root(1, true, 2, false), Work(false, 1, DirtyMark, Dispatched, false));
    ForgottenIsUntracked(n, p);
  }
}
