/**
 * The debouncer: one pending change per path, a deadline heap with lazy
 * deletion, and flushes that must agree with the plain map.
 */
module Debounce {
  import opened Basics

  type Path = string

  datatype Op = Created | Removed | Modified | Move

  datatype Change = Change(op: Op, path: Path, oldPath: Path, at: int)

  /** `version` tells a pending change from earlier ones at its path. */
  datatype Pending = Pending(change: Change, deadline: int, version: nat)

  datatype Entry = Entry(key: Path, deadline: int, sequence: nat)

  // --------------------------------------------------------------------- merging

  function Latest(a: int, b: int): int {
    if b > a then b else a
  }

  /** mergeSamePath; None drops both changes. */
  function MergeSamePath(existing: Change, incoming: Change): Option<Change> {
    var at := Latest(existing.at, incoming.at);
    var later := incoming.(at := at);
    var kept := existing.(at := at);
    match existing.op
    case Created => if incoming.op.Removed? then None else if incoming.op.Move? then Some(later) else Some(kept)
    case Modified => if incoming.op.Created? || incoming.op.Modified? then Some(kept) else Some(later)
    case Removed => if incoming.op.Created? || incoming.op.Modified? then Some(later.(op := Modified)) else Some(later)
    case Move =>
      if incoming.op.Removed? then Some(Change(Removed, existing.oldPath, "", at))
      else if incoming.op.Move? then Some(later) else Some(kept)
  }

  /** mergeFromSource: a move carries what was pending at its source. */
  function MergeFromSource(existing: Change, move: Change): Change {
    var at := Latest(existing.at, move.at);
    match existing.op
    case Created => Change(Created, move.path, "", at)
    case Move => Change(Move, move.path, existing.oldPath, at)
    case _ => Change(Move, move.path, move.oldPath, at)
  }

  /** A chain of moves, as it accumulates from source to source. */
  function Carried(paths: seq<Path>, times: seq<int>): Change
    requires |paths| >= 2 && |times| == |paths| - 1
    decreases |paths|
  {
    var n := |paths|;
    var move := Change(Move, paths[n - 1], paths[n - 2], times[n - 2]);
    if n == 2 then move else MergeFromSource(Carried(paths[..n - 1], times[..n - 2]), move)
  }

  /** Moves compose: the pending change goes from the first path to the last, at the latest time. */
  lemma {:induction false} MovesCompose(paths: seq<Path>, times: seq<int>)
    requires |paths| >= 2 && |times| == |paths| - 1
    ensures var c := Carried(paths, times);
      && c.op.Move? && c.oldPath == paths[0] && c.path == paths[|paths| - 1]
      && (forall i :: 0 <= i < |times| ==> times[i] <= c.at) && c.at in times
    decreases |paths|
  {
    if |paths| > 2 {
      MovesCompose(paths[..|paths| - 1], times[..|times| - 1]);
      assert forall i :: 0 <= i < |times| - 1 ==> times[..|times| - 1][i] == times[i];
    }
  }

  /** Merging never moves a change earlier, and so never shortens its quiet period. */
  lemma MergingNeverHurries(existing: Change, incoming: Change)
    ensures var merged := MergeSamePath(existing, incoming);
      merged.Some? ==> merged.value.at == Max(existing.at, incoming.at)
    ensures MergeFromSource(existing, incoming).at == Max(existing.at, incoming.at)
  {
  }

  /** Whether the path exists after the operation. */
  function ExistsAfter(op: Op): bool {
    !op.Removed?
  }

  /** A trace of one path without moves, each step possible in the state before it. */
  predicate Consistent(exists0: bool, trace: seq<Op>)
    decreases |trace|
  {
    trace == [] ||
    var last := trace[|trace| - 1];
    var before := trace[..|trace| - 1];
    !last.Move? && Consistent(exists0, before) && (if ExistsNow(exists0, before) then !last.Created? else last.Created?)
  }

  function ExistsNow(exists0: bool, trace: seq<Op>): bool {
    if trace == [] then exists0 else ExistsAfter(trace[|trace| - 1])
  }

  /** The net change between two moments: nothing, appeared, vanished or touched. */
  function Net(before: bool, after: bool): Option<Op> {
    if before && after then Some(Modified)
    else if before then Some(Removed)
    else if after then Some(Created)
    else None
  }

  // ------------------------------------------------------------------- the queue

  /** The order in which changes fall due. */
  predicate Earlier(a: Entry, b: Entry) {
    a.deadline < b.deadline || (a.deadline == b.deadline && a.sequence < b.sequence)
  }

  function EntryOf(key: Path, p: Pending): Entry {
    Entry(key, p.deadline, p.version)
  }

  predicate LiveEntry(byPath: map<Path, Pending>, e: Entry) {
    e.key in byPath && byPath[e.key].version == e.sequence
  }

  /** Every pending change has its one entry; an entry without its change is stale. */
  ghost predicate HeapAgrees(byPath: map<Path, Pending>, heap: set<Entry>, sequence: nat) {
    && (forall k :: k in byPath ==> EntryOf(k, byPath[k]) in heap)
    && (forall e :: e in heap ==> e.sequence <= sequence)
    && (forall e, f :: e in heap && f in heap && e.sequence == f.sequence ==> e == f)
  }

  lemma OneEntryPerPath(byPath: map<Path, Pending>, heap: set<Entry>, sequence: nat, e: Entry)
    requires HeapAgrees(byPath, heap, sequence) && e in heap && LiveEntry(byPath, e)
    ensures e == EntryOf(e.key, byPath[e.key])
  {
    assert EntryOf(e.key, byPath[e.key]) in heap;
  }

  // ------------------------------------------------- the plain map it must agree with

  function Put(byPath: map<Path, Pending>, change: Change, window: int, sequence: nat): map<Path, Pending> {
    byPath[change.path := Pending(change, change.at + window, sequence + 1)]
  }

  /** What adding a change does to the map alone. */
  function Added(byPath: map<Path, Pending>, incoming: Change, window: int, sequence: nat): map<Path, Pending> {
    if incoming.op.Move? then
      var carried := if incoming.oldPath in byPath then MergeFromSource(byPath[incoming.oldPath].change, incoming)
        else incoming;
      Put(byPath - {incoming.oldPath, incoming.path}, carried, window, sequence)
    else if incoming.path !in byPath then Put(byPath, incoming, window, sequence)
    else
      var existing := byPath[incoming.path].change;
      var rest := byPath - {incoming.path};
      if existing.op.Move? && incoming.op.Removed? && existing.oldPath in rest then rest
      else match MergeSamePath(existing, incoming)
        case None => rest
        case Some(merged) => Put(rest, merged, window, sequence)
  }

  // -------------------------------------------------------------- what folding means

  /** The maps a state goes through while it takes in changes, one after the other. */
  ghost predicate TakesIn(maps: seq<map<Path, Pending>>, changes: seq<Change>, window: int, sequences: seq<nat>) {
    && |maps| == |changes| + 1 && |sequences| == |changes|
    && forall k :: 0 <= k < |changes| ==> maps[k + 1] == Added(maps[k], changes[k], window, sequences[k])
  }

  /** The operations seen at one path. */
  function OpsAt(changes: seq<Change>, p: Path): seq<Op>
    decreases |changes|
  {
    if changes == [] then []
    else
      var last := changes[|changes| - 1];
      OpsAt(changes[..|changes| - 1], p) + if last.path == p then [last.op] else []
  }

  ghost predicate NoMoves(byPath: map<Path, Pending>) {
    forall k :: k in byPath ==> !byPath[k].change.op.Move? && byPath[k].change.path == k
  }

  /** What is pending at a path is the given operation, or nothing. */
  predicate Shows(byPath: map<Path, Pending>, p: Path, op: Option<Op>) {
    if op.None? then p !in byPath else p in byPath && byPath[p].change.op == op.value && byPath[p].change.path == p
  }

  lemma AddedElsewhere(byPath: map<Path, Pending>, incoming: Change, window: int, sequence: nat, p: Path)
    requires NoMoves(byPath) && !incoming.op.Move?
    ensures NoMoves(Added(byPath, incoming, window, sequence))
    ensures incoming.path != p ==>
      forall op :: Shows(Added(byPath, incoming, window, sequence), p, op) <==> Shows(byPath, p, op)
  {
  }

  /**
   * Whatever else is coming in between, and in whatever order, what is pending
   * at a path after a possible trace of it without moves is exactly its net
   * effect: nothing if it came and went, else appeared, vanished or touched.
   */
  lemma {:induction false} FoldingIsNetEffect(
    maps: seq<map<Path, Pending>>, changes: seq<Change>, window: int, sequences: seq<nat>, p: Path, exists0: bool)
    requires TakesIn(maps, changes, window, sequences) && (forall k :: 0 <= k < |changes| ==> !changes[k].op.Move?)
    requires NoMoves(maps[0]) && p !in maps[0] && Consistent(exists0, OpsAt(changes, p))
    ensures NoMoves(maps[|changes|])
    ensures var trace := OpsAt(changes, p);
      Shows(maps[|changes|], p, if trace == [] then None else Net(exists0, ExistsNow(exists0, trace)))
    decreases |changes|
  {
    if changes != [] {
      var n := |changes| - 1;
      var before := OpsAt(changes[..n], p);
      var trace := OpsAt(changes, p);
      assert if changes[n].path == p then trace[..|trace| - 1] == before else trace == before;
      FoldingIsNetEffect(maps[..n + 1], changes[..n], window, sequences[..n], p, exists0);
      AddedElsewhere(maps[n], changes[n], window, sequences[n], p);
    }
  }

  function DueKeys(byPath: map<Path, Pending>, now: int): set<Path> {
    set k | k in byPath && byPath[k].deadline <= now
  }

  /** The flushed changes are exactly those due, earliest first. */
  ghost predicate FlushedInOrder(byPath: map<Path, Pending>, keys: seq<Path>, due: set<Path>) {
    && NoDuplicates(keys) && (forall k :: k in keys ==> k in byPath && k in due)
    && (forall i, j :: 0 <= i < j < |keys| ==>
      Earlier(EntryOf(keys[i], byPath[keys[i]]), EntryOf(keys[j], byPath[keys[j]])))
    && (forall i, k :: 0 <= i < |keys| && k in byPath && k !in keys ==>
      Earlier(EntryOf(keys[i], byPath[keys[i]]), EntryOf(k, byPath[k])))
  }

  class PendingState {
    const window: int
    var byPath: map<Path, Pending>
    var heap: set<Entry>
    var sequence: nat

    ghost predicate Valid()
      reads this
    {
      HeapAgrees(byPath, heap, sequence)
    }

    constructor (window: int)
      ensures Valid() && byPath == map[] && heap == {} && this.window == window
    {
      this.window, byPath, heap, sequence := window, map[], {}, 0;
    }

    /** put: a fresh version and its heap entry. */
    method PutChange(change: Change)
      requires Valid()
      modifies this
      ensures Valid() && sequence == old(sequence) + 1 && byPath == Put(old(byPath), change, window, old(sequence))
    {
      sequence := sequence + 1;
      var pending := Pending(change, change.at + window, sequence);
      byPath := byPath[change.path := pending];
      heap := heap + {Entry(change.path, pending.deadline, sequence)};
    }

    /** add: the lazily pruned heap follows the map through every merge. */
    method Add(incoming: Change)
      requires Valid()
      modifies this
      ensures Valid() && byPath == Added(old(byPath), incoming, window, old(sequence)) && sequence >= old(sequence)
    {
      if incoming.op.Move? {
        var carried := incoming;
        if incoming.oldPath in byPath {
          carried := MergeFromSource(byPath[incoming.oldPath].change, incoming);
          byPath := byPath - {incoming.oldPath};
        }
        byPath := byPath - {incoming.path};
        assert byPath == old(byPath) - {incoming.oldPath, incoming.path};
        PutChange(carried);
        return;
      }
      if incoming.path !in byPath {
        PutChange(incoming);
        return;
      }
      var existing := byPath[incoming.path].change;
      byPath := byPath - {incoming.path};
      if existing.op.Move? && incoming.op.Removed? && existing.oldPath in byPath {
        return;
      }
      var merged := MergeSamePath(existing, incoming);
      if merged.Some? {
        PutChange(merged.value);
      }
    }

    /** The heap's root. */
    method First() returns (first: Entry)
      requires heap != {}
      ensures first in heap && forall e :: e in heap && e != first ==> !Earlier(e, first)
    {
      first :| first in heap;
      var rest := heap - {first};
      while rest != {}
        invariant rest <= heap && first in heap && first !in rest
        invariant forall e :: e in heap && e !in rest ==> !Earlier(e, first)
      {
        var e :| e in rest;
        if Earlier(e, first) {
          first := e;
        }
        rest := rest - {e};
      }
    }

    /** discardStale: afterwards the root, if any, is a pending change's own entry. */
    method DiscardStale() returns (first: Option<Entry>)
      requires Valid()
      modifies this`heap
      ensures Valid() && heap <= old(heap)
      ensures first.None? <==> byPath == map[]
      ensures first.Some? ==> first.value in heap && LiveEntry(byPath, first.value)
      ensures first.Some? ==> forall e :: e in heap && e != first.value ==> !Earlier(e, first.value)
    {
      while heap != {}
        invariant Valid() && heap <= old(heap)
        decreases heap
      {
        var root := First();
        if LiveEntry(byPath, root) {
          return Some(root);
        }
        heap := heap - {root};
      }
      assert forall k :: k in byPath ==> EntryOf(k, byPath[k]) in heap;
      return None;
    }

    /** peek: the pending change that falls due first, if it is due (or all are wanted). */
    method Peek(all: bool, now: int) returns (found: Option<Path>)
      requires Valid()
      modifies this`heap
      ensures Valid()
      ensures found.None? <==> Wanted(byPath, all, now) == {}
      ensures found.Some? ==> found.value in Wanted(byPath, all, now) && ComesFirst(byPath, found.value)
    {
      var first := DiscardStale();
      if first.None? {
        return None;
      }
      OneEntryPerPath(byPath, heap, sequence, first.value);
      forall k | k in byPath && k != first.value.key
        ensures Earlier(first.value, EntryOf(k, byPath[k]))
      {
        assert EntryOf(k, byPath[k]) in heap;
      }
      if !all && first.value.deadline > now {
        return None;
      }
      assert first.value.key in Wanted(byPath, all, now);
      return Some(first.value.key);
    }

    method Remove(key: Path)
      requires Valid()
      modifies this`byPath, this`heap
      ensures Valid() && byPath == old(byPath) - {key}
    {
      byPath := byPath - {key};
      var first := DiscardStale();
    }

    /**
     * flushDue and flushAll: persist and remove, earliest first, until nothing
     * wanted is left or a write fails (after `succeeds` of them).
     */
    method Flush(all: bool, now: int, succeeds: Option<nat>) returns (persisted: seq<Path>, failed: bool)
      requires Valid()
      modifies this`byPath, this`heap
      ensures Valid() && byPath == old(byPath) - (set k | k in persisted)
      ensures FlushedInOrder(old(byPath), persisted, Wanted(old(byPath), all, now))
      ensures !failed ==> (set k | k in persisted) == Wanted(old(byPath), all, now)
      ensures failed ==> succeeds == Some(|persisted|)
    {
      persisted := [];
      while true
        invariant Valid() && byPath == old(byPath) - (set k | k in persisted)
        invariant FlushedInOrder(old(byPath), persisted, Wanted(old(byPath), all, now))
        decreases byPath.Keys
      {
        var next := Peek(all, now);
        WantedShrinks(old(byPath), persisted, all, now);
        if next.None? {
          return persisted, false;
        }
        if succeeds == Some(|persisted|) {
          return persisted, true;
        }
        FlushNext(old(byPath), persisted, Wanted(old(byPath), all, now), next.value);
        persisted := persisted + [next.value];
        Remove(next.value);
      }
    }
  }

  function Wanted(byPath: map<Path, Pending>, all: bool, now: int): set<Path> {
    if all then byPath.Keys else DueKeys(byPath, now)
  }

  /** No other pending change falls due before this one. */
  ghost predicate ComesFirst(byPath: map<Path, Pending>, key: Path) {
    key in byPath && forall k :: k in byPath && k != key ==> Earlier(EntryOf(key, byPath[key]), EntryOf(k, byPath[k]))
  }

  lemma WantedShrinks(byPath: map<Path, Pending>, keys: seq<Path>, all: bool, now: int)
    ensures Wanted(byPath - (set k | k in keys), all, now) == Wanted(byPath, all, now) - (set k | k in keys)
  {
  }

  lemma FlushNext(byPath: map<Path, Pending>, keys: seq<Path>, due: set<Path>, key: Path)
    requires FlushedInOrder(byPath, keys, due) && key in byPath && key in due && key !in keys
    requires ComesFirst(byPath - (set k | k in keys), key)
    ensures FlushedInOrder(byPath, keys + [key], due)
  {
    var rest := byPath - (set k | k in keys);
    var longer := keys + [key];
    forall i, k | 0 <= i < |longer| && k in byPath && k !in longer
      ensures Earlier(EntryOf(longer[i], byPath[longer[i]]), EntryOf(k, byPath[k]))
    {
      assert key in longer;
      assert forall j :: j in keys ==> j in longer;
      assert k in rest && rest[k] == byPath[k];
    }
    forall i, j | 0 <= i < j < |longer|
      ensures Earlier(EntryOf(longer[i], byPath[longer[i]]), EntryOf(longer[j], byPath[longer[j]]))
    {
    }
  }
}
