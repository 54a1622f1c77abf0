/** What every interleaving of the watcher, the scanner and removals keeps. */
module RootsSafety {
  import opened Roots

  // --------------------------------------------------------------------- fencing

  /** The instance is still there and nobody is removing it. */
  predicate Current(n: Net, id: Id) {
    Lists(n.roots, id) && !n.roots[id.path].removing
  }

  predicate WasCancelled(w: Work) {
    w.cancelled || (w.phase.Finished? && w.phase.outcome.ScanCanceled?)
  }

  ghost predicate EpochsFresh(n: Net) {
    && (forall p :: p in n.roots ==> n.roots[p].epoch <= n.nextEpoch)
    && (forall id :: id in n.locked ==> id.epoch <= n.nextEpoch)
    && (forall id :: id in n.works ==> id.epoch <= n.nextEpoch)
    && (n.loop.Taking? ==> forall p :: p in n.loop.taken ==> n.loop.taken[p].epoch <= n.nextEpoch)
  }

  ghost predicate LocksHold(n: Net) {
    && n.blocked <= n.locked && n.fenced <= n.locked
    && (forall id :: id in n.locked ==> !Current(n, id))
    && (!n.loop.Rounding? ==> n.works == map[])
  }

  ghost predicate WorksFenced(n: Net) {
    && (forall id :: id in n.works && WasCancelled(n.works[id]) ==> id in n.locked)
    && (forall id :: id in n.works && id in n.locked && n.works[id].phase.Dispatched? ==> id in n.blocked)
    && (forall id :: id in n.works && id in n.fenced ==> !n.works[id].phase.Scanning?)
  }

  /** What a fence has locked is neither scanned anew nor able to be dispatched. */
  ghost predicate FencesHold(n: Net) {
    LocksHold(n) && WorksFenced(n)
  }

  /** A snapshot taken before a fence cannot get past the fence's tombstone. */
  ghost predicate TombstonesHold(n: Net) {
    n.loop.Taking? ==> forall id :: id in n.locked && Lists(n.loop.taken, id) && !n.loop.taken[id.path].removing ==>
      id in n.blocked && id !in n.pending
  }

  lemma EpochsStay(n: Net, step: Step)
    requires EpochsFresh(n) && CanStep(n, step)
    ensures EpochsFresh(Next(n, step))
  {
  }

  lemma TombstonesStay(n: Net, step: Step)
    requires EpochsFresh(n) && FencesHold(n) && TombstonesHold(n) && CanStep(n, step)
    ensures TombstonesHold(Next(n, step))
  {
  }

  lemma LocksStay(n: Net, step: Step)
    requires EpochsFresh(n) && LocksHold(n) && CanStep(n, step)
    ensures LocksHold(Next(n, step))
  {
  }

  /** The steps of one dispatched scan. */
  predicate IsScanStep(step: Step) {
    step.Register? || step.Finish? || step.Judge? || step.Acknowledge? || step.Requeue?
  }

  lemma ScansStayFenced(n: Net, step: Step)
    requires LocksHold(n) && WorksFenced(n) && CanStep(n, step) && IsScanStep(step)
    ensures WorksFenced(Next(n, step))
  {
  }

  lemma WorksStayFenced(n: Net, step: Step)
    requires LocksHold(n) && WorksFenced(n) && TombstonesHold(n) && CanStep(n, step)
    ensures WorksFenced(Next(n, step))
  {
    if IsScanStep(step) {
      ScansStayFenced(n, step);
    }
  }

  // ------------------------------------------------------------------ dirty roots

  /** A scan of the instance that started with at least `losses` losses on record has completed. */
  ghost predicate Covers(n: Net, id: Id, losses: nat) {
    exists l :: l >= losses && Scan(id, l) in n.completed
  }

  /** A clean root owes nothing: every recorded loss came before the start of a completed scan. */
  ghost predicate CleanIsCovered(n: Net) {
    forall p :: p in n.roots && !n.roots[p].dirty ==> Covers(n, IdOf(n.roots, p), n.roots[p].generation)
  }

  predicate Started(w: Work) {
    w.phase.Scanning? || w.phase.Judged? || (w.phase.Finished? && w.phase.outcome.ScanOk?)
  }

  /** What a round knows about a root was true when it looked, and only grows. */
  ghost predicate SnapshotsBehind(n: Net) {
    && (forall id :: id in n.works && Lists(n.roots, id) ==> n.works[id].generation <= n.roots[id.path].generation)
    && (n.loop.Taking? ==> forall id :: Lists(n.loop.taken, id) && Lists(n.roots, id) ==>
          n.loop.taken[id.path].generation <= n.roots[id.path].generation)
  }

  ghost predicate ScansRecorded(n: Net) {
    forall id :: id in n.works && Started(n.works[id]) ==>
      && n.works[id].generation <= n.works[id].phase.losses
      && (!n.works[id].phase.Scanning? ==> Scan(id, n.works[id].phase.losses) in n.completed)
  }

  lemma ScansStayBehind(n: Net, step: Step)
    requires SnapshotsBehind(n) && CanStep(n, step) && IsScanStep(step)
    ensures SnapshotsBehind(Next(n, step))
  {
  }

  lemma SnapshotsStayBehind(n: Net, step: Step)
    requires EpochsFresh(n) && FencesHold(n) && SnapshotsBehind(n) && CanStep(n, step)
    ensures SnapshotsBehind(Next(n, step))
  {
    if IsScanStep(step) {
      ScansStayBehind(n, step);
    }
  }

  lemma ScanStaysRecorded(n: Net, step: Step)
    requires SnapshotsBehind(n) && ScansRecorded(n) && CanStep(n, step) && IsScanStep(step)
    ensures ScansRecorded(Next(n, step))
  {
  }

  lemma ScansStayRecorded(n: Net, step: Step)
    requires FencesHold(n) && SnapshotsBehind(n) && ScansRecorded(n) && CanStep(n, step)
    ensures ScansRecorded(Next(n, step))
  {
    if IsScanStep(step) {
      ScanStaysRecorded(n, step);
    }
  }

  lemma CleanStaysCovered(n: Net, step: Step)
    requires ScansRecorded(n) && CleanIsCovered(n) && CanStep(n, step)
    ensures CleanIsCovered(Next(n, step))
  {
    var after := Next(n, step);
    forall p | p in after.roots && !after.roots[p].dirty
      ensures Covers(after, IdOf(after.roots, p), after.roots[p].generation)
    {
      var id := IdOf(after.roots, p);
      if p in n.roots && !n.roots[p].dirty && IdOf(n.roots, p) == id
        && n.roots[p].generation == after.roots[p].generation {
        var l :| l >= n.roots[p].generation && Scan(id, l) in n.completed;
        assert Scan(id, l) in after.completed;
      } else {
        assert step.Acknowledge? && step.id == id;
        assert Scan(id, n.works[id].phase.losses) in after.completed;
      }
    }
  }

  ghost predicate Safe(n: Net) {
    EpochsFresh(n) && FencesHold(n) && TombstonesHold(n) && SnapshotsBehind(n) && ScansRecorded(n) && CleanIsCovered(n)
  }

  lemma StepKeeps(n: Net, step: Step)
    requires Safe(n) && CanStep(n, step)
    ensures Safe(Next(n, step))
  {
    EpochsStay(n, step);
    LocksStay(n, step);
    WorksStayFenced(n, step);
    TombstonesStay(n, step);
    SnapshotsStayBehind(n, step);
    ScansStayRecorded(n, step);
    CleanStaysCovered(n, step);
  }

  ghost predicate Run(states: seq<Net>, steps: seq<Step>) {
    && |states| == |steps| + 1 && states[0] == START
    && forall k :: 0 <= k < |steps| ==> CanStep(states[k], steps[k]) && states[k + 1] == Next(states[k], steps[k])
  }

  lemma {:induction false} RunIsSafe(states: seq<Net>, steps: seq<Step>, k: nat)
    requires Run(states, steps) && k <= |steps|
    ensures Safe(states[k])
    decreases k
  {
    if k > 0 {
      RunIsSafe(states, steps, k - 1);
      StepKeeps(states[k - 1], steps[k - 1]);
    }
  }

  /** A root found clean, in any run, was wholly scanned after its last recorded loss. */
  lemma CleanRootWasScanned(states: seq<Net>, steps: seq<Step>, k: nat, p: Path)
    requires Run(states, steps) && k <= |steps| && p in states[k].roots && !states[k].roots[p].dirty
    ensures Covers(states[k], IdOf(states[k].roots, p), states[k].roots[p].generation)
  {
    RunIsSafe(states, steps, k);
  }

  predicate Active(n: Net, id: Id) {
    id in n.works && n.works[id].phase.Scanning?
  }

  /** Once a fence has returned, no scan of that epoch is active, then or ever after. */
  lemma {:induction false} FencedNeverScans(states: seq<Net>, steps: seq<Step>, i: nat, j: nat, id: Id)
    requires Run(states, steps) && i <= j <= |steps| && id in states[i].fenced
    ensures id in states[j].fenced && !Active(states[j], id)
    decreases j
  {
    RunIsSafe(states, steps, j);
    if i < j {
      FencedNeverScans(states, steps, i, j - 1, id);
    }
  }

  // -------------------------------------------------------------------- no lost root

  /** Someone in the watcher is still about to queue the root. */
  ghost predicate Announced(n: Net, id: Id) {
    exists a :: a in n.notices && (n.notices[a] == Notifying(id.path) || n.notices[a] == Found(id))
  }

  /** A round owes the root an acknowledgement or another turn. */
  predicate Owed(n: Net, id: Id) {
    id in n.works && (n.works[id].dirty || n.works[id].phase.MustQueue?)
  }

  ghost predicate Tracked(n: Net, id: Id) {
    id in n.pending || Owed(n, id) || Announced(n, id)
  }

  /** The root at p, if dirty and not being removed, is queued, owed by a round, or about to be queued. */
  ghost predicate TrackedAt(n: Net, p: Path) {
    p in n.roots && n.roots[p].dirty && !n.roots[p].removing ==> Tracked(n, IdOf(n.roots, p))
  }

  ghost predicate DirtyIsTracked(n: Net) {
    forall p :: TrackedAt(n, p)
  }

  /**
   * The snapshot is behind for a queued root: it does not list the instance, or
   * it would dispatch it as if it were clean.
   */
  ghost predicate Misses(n: Net, id: Id, now: int)
    requires n.loop.Taking?
  {
    && id in n.pending
    && (!Lists(n.loop.taken, id) || (Ready(n.loop.taken, id, n.pending[id], now) && !n.loop.taken[id.path].dirty))
  }

  /** A dispatch that misses the root at p while nobody announces it. */
  ghost predicate LosesAt(n: Net, step: Step, p: Path) {
    && step.CommitTake? && n.loop.Taking? && p in n.roots && n.roots[p].dirty && !n.roots[p].removing
    && Misses(n, IdOf(n.roots, p), step.now) && !Announced(n, IdOf(n.roots, p))
  }

  ghost predicate LosesRoot(n: Net, step: Step) {
    exists p :: LosesAt(n, step, p)
  }

  lemma CommitTracks(n: Net, step: Step, p: Path)
    requires FencesHold(n) && TrackedAt(n, p) && step.CommitTake? && CanStep(n, step)
    ensures TrackedAt(Next(n, step), p) <==> !LosesAt(n, step, p)
  {
  }

  /**
   * Every step keeps a root tracked, whatever becomes of other roots, except
   * exactly a dispatch from a snapshot that misses this one.
   */
  lemma StepTracksRoot(n: Net, step: Step, p: Path)
    requires Safe(n) && TrackedAt(n, p) && CanStep(n, step)
    ensures TrackedAt(Next(n, step), p) <==> !LosesAt(n, step, p)
  {
    if step.CommitTake? {
      CommitTracks(n, step, p);
    } else {
      OtherStepTracks(n, step, p);
    }
  }

  /** For all roots at once. */
  lemma StepTracks(n: Net, step: Step)
    requires Safe(n) && DirtyIsTracked(n) && CanStep(n, step)
    ensures DirtyIsTracked(Next(n, step)) <==> !LosesRoot(n, step)
  {
    var after := Next(n, step);
    forall p
      ensures TrackedAt(after, p) <==> !LosesAt(n, step, p)
    {
      StepTracksRoot(n, step, p);
    }
    TracksAll(n, step, after);
  }

  lemma TracksAll(n: Net, step: Step, after: Net)
    requires forall p :: TrackedAt(after, p) <==> !LosesAt(n, step, p)
    ensures DirtyIsTracked(after) <==> !LosesRoot(n, step)
  {
  }

  /** A periodic or startup scan tracks every root on its list again, forgotten or not. */
  lemma ListingTracks(n: Net, p: Path)
    requires Safe(n) && CanStep(n, CommitAll) && (p in n.roots ==> Lists(n.loop.listed, IdOf(n.roots, p)))
    ensures TrackedAt(Next(n, CommitAll), p)
  {
    if p in n.roots {
      assert IdOf(n.loop.listed, p) in IdsOf(n.loop.listed);
    }
  }

  /** An announcement ends only in the queue. */
  lemma AnnouncedStays(n: Net, step: Step, id: Id)
    requires CanStep(n, step) && FencesHold(n) && Announced(n, id) && Lists(Next(n, step).roots, id)
    requires Current(n, id) || step.AddRoot?
    ensures Announced(Next(n, step), id) || id in Next(n, step).pending
  {
    var after := Next(n, step);
    var a :| a in n.notices && (n.notices[a] == Notifying(id.path) || n.notices[a] == Found(id));
    if a in after.notices {
      assert after.notices[a] == n.notices[a] || after.notices[a] == Found(id);
    }
  }

  lemma OtherStepTracks(n: Net, step: Step, p: Path)
    requires Safe(n) && TrackedAt(n, p) && CanStep(n, step) && !step.CommitTake?
    ensures TrackedAt(Next(n, step), p)
  {
    var after := Next(n, step);
    if p !in after.roots || !after.roots[p].dirty || after.roots[p].removing {
      return;
    }
    var id := IdOf(after.roots, p);
    if (step.AddRoot? || step.Loss?) && step.path == p && step.actor in after.notices {
      assert after.notices[step.actor] == Notifying(p);
    } else if Announced(n, id) {
      AnnouncedStays(n, step, id);
    } else if IsScanStep(step) {
      ScanStepTracks(n, step, p);
    } else {
      assert id in n.pending || Owed(n, id);
    }
  }

  lemma ScanStepTracks(n: Net, step: Step, p: Path)
    requires TrackedAt(n, p) && WorksFenced(n) && LocksHold(n) && CanStep(n, step) && IsScanStep(step)
    requires p in Next(n, step).roots && Next(n, step).roots[p].dirty && !Next(n, step).roots[p].removing
    requires !Announced(n, IdOf(Next(n, step).roots, p))
    ensures Tracked(Next(n, step), IdOf(Next(n, step).roots, p))
  {
    var id := IdOf(n.roots, p);
    assert id in n.pending || Owed(n, id);
  }

  /** A snapshot that still shows each queued dirty root as the watcher has it misses nothing. */
  lemma CurrentSnapshotMissesNothing(n: Net, step: Step)
    requires CanStep(n, step)
    requires step.CommitTake? ==>
      forall p :: p in n.roots && n.roots[p].dirty && !n.roots[p].removing && IdOf(n.roots, p) in n.pending ==>
      p in n.loop.taken && n.loop.taken[p] == n.roots[p]
    ensures !LosesRoot(n, step)
  {
  }

  /**
   * In every run a root that is tracked at some moment stays so, until a
   * dispatch misses that very root.
   */
  lemma {:induction false} RunTracksRoot(states: seq<Net>, steps: seq<Step>, i: nat, k: nat, p: Path)
    requires Run(states, steps) && i <= k <= |steps| && TrackedAt(states[i], p)
    requires forall j :: i <= j < k ==> !LosesAt(states[j], steps[j], p)
    ensures TrackedAt(states[k], p)
    decreases k
  {
    if i < k {
      RunTracksRoot(states, steps, i, k - 1, p);
      RunIsSafe(states, steps, k - 1);
      StepTracksRoot(states[k - 1], steps[k - 1], p);
    }
  }

  /** A root that was ever forgotten is tracked again from the next periodic scan that lists it. */
  lemma ListedRootIsTracked(states: seq<Net>, steps: seq<Step>, i: nat, k: nat, p: Path)
    requires Run(states, steps) && i < k <= |steps| && steps[i] == CommitAll
    requires p in states[i].roots ==> Lists(states[i].loop.listed, IdOf(states[i].roots, p))
    requires forall j :: i < j < k ==> !LosesAt(states[j], steps[j], p)
    ensures TrackedAt(states[k], p)
  {
    RunIsSafe(states, steps, i);
    ListingTracks(states[i], p);
    RunTracksRoot(states, steps, i + 1, k, p);
  }

  /** Over every run whose dispatches miss nothing, no dirty root is ever forgotten. */
  lemma RunTracks(states: seq<Net>, steps: seq<Step>, k: nat)
    requires Run(states, steps) && k <= |steps| && forall j :: 0 <= j < k ==> !LosesRoot(states[j], steps[j])
    ensures DirtyIsTracked(states[k])
  {
    forall p
      ensures TrackedAt(states[k], p)
    {
      assert forall j :: 0 <= j < k ==> !LosesAt(states[j], steps[j], p);
      RunTracksRoot(states, steps, 0, k, p);
    }
  }
}
