/** The vector index itself: replay, rebuild, open, apply, snapshot and search. */
module VectorIndex {
  import opened Basics
  import Catalog
  import opened VectorTruth
  import opened VectorProjection

  datatype Request = ReplaceVectors(file: nat, current: bool, model: string, rows: seq<Row>) | DeleteVectors(file: nat,
    current: bool)

  datatype Hit = Hit(key: Key, timestamp: Option<int>)

  datatype SearchOutcome = Hits(hits: seq<Hit>) | ModelMismatch | DimensionMismatch

  function IndexedAt(file: Catalog.File): int {
    if file.indexedAt.Some? then file.indexedAt.value else 0
  }

  /** ORDER BY: rows of indexed files first, then the latest indexed, then the newest generation. */
  predicate ComesBefore(a: Catalog.File, b: Catalog.File) {
    var atA, atB := IndexedAt(a), IndexedAt(b);
    if a.status.Indexed? != b.status.Indexed? then a.status.Indexed?
    else atA > atB || (atA == atB && a.generation > b.generation)
  }

  /** A row of a catalog file that no other such row comes before. */
  ghost predicate IsLatest(files: map<nat, Catalog.File>, rows: map<Key, Vector>, k: Key) {
    && k in rows && k.file in files
    && forall other :: other in rows && other.file in files ==> !ComesBefore(files[other.file], files[k.file])
  }

  /** The model of a latest row. */
  ghost predicate LatestIs(files: map<nat, Catalog.File>, rows: map<Key, Vector>, model: string) {
    exists k :: IsLatest(files, rows, k) && rows[k].model == model
  }

  ghost predicate AnyListed(files: map<nat, Catalog.File>, rows: map<Key, Vector>) {
    exists k :: k in rows && k.file in files
  }

  class Index {
    const table: Table
    const threshold: real
    var state: State
    ghost var snapshots: set<Snapshot>

    /** Every snapshot ever written describes the truth at its own revision. */
    ghost predicate SnapshotsFaithful()
      reads this, table
    {
      forall s :: s in snapshots ==> Faithful(s, table.history, table.contracts)
    }

    ghost predicate Valid()
      reads this, table
    {
      && table.Valid() && SnapshotsFaithful()
      && Agrees(state, table.rows) && state.revision == table.sequence
      && Sized(state.graph, state.model, state.dimensions, table.contracts)
    }

    /** OpenVectorIndex over a database that has never had an index. */
    constructor (table: Table, threshold: real)
      requires table.Valid() && table.history == []
      ensures this.table == table && this.threshold == threshold && Valid() && snapshots == {}
    {
      this.table, this.threshold, this.state, this.snapshots := table, threshold, NO_STATE, {};
    }

    // ------------------------------------------------------------------ rebuild

    /** rebuildFromStore for one model: every truth row of it, at the current revision. */
    method RebuildModel(model: string)
      requires table.Valid() && model != ""
      modifies this`state
      ensures Agrees(state, table.rows) && Sized(state.graph, state.model, state.dimensions, table.contracts)
      ensures state.model == model && state.revision == table.sequence && state.tombstones == {}
    {
      var s := NO_STATE.(model := model);
      TruthConforms(table.history, table.contracts);
      var rest := set k | k in table.rows && table.rows[k].model == model;
      while rest != {}
        invariant rest <= set k | k in table.rows && table.rows[k].model == model
        invariant s.model == model && s.tombstones == {} && s.metadata.Keys == s.graph.Keys
        invariant forall k :: k in s.graph <==> IsRow(table.rows, model, k) && k !in rest
        invariant forall k :: k in s.graph ==>
          s.graph[k] == table.rows[k].values && s.metadata[k] == table.rows[k].timestamp
        invariant Sized(s.graph, model, s.dimensions, table.contracts)
        decreases rest
      {
        var k :| k in rest;
        var v := table.rows[k];
        s := s.(dimensions := |v.values|, graph := s.graph[k := v.values], metadata := s.metadata[k := v.timestamp]);
        rest := rest - {k};
      }
      state := s.(revision := table.sequence);
    }

    /** LatestVectorModelVersion: the model of the first row in that order, if any row's file is listed. */
    method LatestModel(files: map<nat, Catalog.File>) returns (latest: Option<string>)
      ensures latest.Some? <==> AnyListed(files, table.rows)
      ensures latest.Some? ==> LatestIs(files, table.rows, latest.value)
    {
      var rest := set k | k in table.rows && k.file in files;
      assert forall k :: k in table.rows && k.file in files ==> k in rest;
      if rest == {} {
        return None;
      }
      var best :| best in rest;
      assert AnyListed(files, table.rows);
      rest := rest - {best};
      while rest != {}
        invariant best in table.rows && best.file in files
        invariant forall k :: k in rest ==> k in table.rows && k.file in files
        invariant forall k :: k in table.rows && k.file in files && k !in rest ==>
          !ComesBefore(files[k.file], files[best.file])
        decreases rest
      {
        var k :| k in rest;
        if ComesBefore(files[k.file], files[best.file]) {
          best := k;
        }
        rest := rest - {k};
      }
      assert IsLatest(files, table.rows, best);
      return Some(table.rows[best].model);
    }

    /** rebuildFromStore: a requested model, or the latest one; with no listed rows at all, an empty index. */
    method Rebuild(requested: string, files: map<nat, Catalog.File>)
      requires table.Valid()
      modifies this`state
      ensures Agrees(state, table.rows) && Sized(state.graph, state.model, state.dimensions, table.contracts)
      ensures state.revision == table.sequence
      ensures requested != "" ==> state.model == requested
      ensures requested == "" && AnyListed(files, table.rows) ==> LatestIs(files, table.rows, state.model)
      ensures requested == "" && !AnyListed(files, table.rows) ==> state == NO_STATE.(revision := table.sequence)
    {
      TruthConforms(table.history, table.contracts);
      var model := requested;
      if model == "" {
        var latest := LatestModel(files);
        if latest.None? {
          state := NO_STATE.(revision := table.sequence);
          return;
        }
        model := latest.value;
      }
      RebuildModel(model);
    }

    // ------------------------------------------------------------------- replay

    /** applyChange; it refuses a change of another model or width. */
    method ApplyChange(entry: Entry) returns (failed: bool)
      modifies this`state
      ensures failed <==> Refuses(old(state), entry.change)
      ensures state == if failed then old(state) else Applied(old(state), entry.change).(revision := entry.revision)
    {
      var s := state;
      match entry.change {
      case Upserted(key, v) =>
        if v.model != s.model || (s.dimensions != 0 && s.dimensions != |v.values|) {
          return true;
        }
        s := s.(dimensions := |v.values|, graph := s.graph[key := v.values]);
        s := s.(tombstones := s.tombstones - {key}, metadata := s.metadata[key := v.timestamp]);
      case Removed(key) =>
        if key in s.graph {
          s := s.(tombstones := s.tombstones + {key});
        }
        s := s.(metadata := s.metadata - {key});
      }
      state := s.(revision := entry.revision);
      return false;
    }

    /** VisitVectorChangesAfter: the retained entries above a revision. */
    method ChangesAfter(revision: nat) returns (entries: seq<Entry>)
      requires table.Valid()
      ensures entries == if revision <= table.pruned then table.log
        else if revision <= |table.history| then EntriesAfter(table.history, revision) else []
    {
      entries := [];
      for k := 0 to |table.log|
        invariant entries == if table.pruned + k <= revision then [] else table.log[Max(0, revision - table.pruned)..k]
      {
        if table.log[k].revision > revision {
          entries := entries + [table.log[k]];
        }
      }
    }

    /** One entry: a switch of model is noted, and until there is one changes are applied. */
    method VisitOne(ghost start: nat, ghost e: nat, entry: Entry, before: string) returns (switched: string)
      requires table.Valid() && start <= e < |table.history| && entry == Entry(e + 1, table.history[e])
      requires Replaying(state, table.history, table.contracts, start, e, before)
      modifies this`state
      ensures Replaying(state, table.history, table.contracts, start, e + 1, switched)
    {
      ReplayingNext(state, table.history, table.contracts, start, e, before);
      switched := before;
      var active := if before == "" then state.model else before;
      if entry.change.Upserted? && entry.change.vector.model != active {
        switched := entry.change.vector.model;
      } else if before == "" {
        var refused := ApplyChange(entry);
        assert !refused;
      }
    }

    /**
     * The loop of replayChanges: apply in order, note the last model switch,
     * and stop at the first revision out of step. `stop` cuts the read short.
     */
    method Visit(start: nat, entries: seq<Entry>, stop: Option<nat>)
      returns (failed: bool, switched: string, count: nat)
      requires table.Valid() && start <= |table.history|
      requires ReplayedTo(state, table.history, table.contracts, start)
      requires entries == if start <= table.pruned then table.log else EntriesAfter(table.history, start)
      modifies this`state
      ensures !failed ==> count == |entries| && (entries == [] || table.pruned <= start)
      ensures stop.None? && (entries == [] || table.pruned <= start) ==> !failed
      ensures !failed && entries != [] ==>
        Replaying(state, table.history, table.contracts, start, |table.history|, switched)
      ensures entries == [] ==> state == old(state) && switched == ""
    {
      var expected, active := start + 1, state.model;
      switched, count := "", 0;
      assert entries != [] && start < table.pruned ==> entries[0].revision != start + 1;
      assert table.pruned <= start ==> entries == EntriesAfter(table.history, start);
      while count < |entries|
        invariant count <= |entries| && expected == start + 1 + count
        invariant count > 0 ==> table.pruned <= start
        invariant active == if switched == "" then state.model else switched
        invariant start + count <= |table.history|
        invariant Replaying(state, table.history, table.contracts, start, start + count, switched)
        invariant entries == [] ==> state == old(state) && switched == ""
      {
        if stop == Some(count) || entries[count].revision != expected {
          return true, switched, count;
        }
        switched := VisitOne(start, start + count, entries[count], switched);
        active := if switched == "" then state.model else switched;
        expected, count := expected + 1, count + 1;
      }
      return false, switched, count;
    }

    /** replayChanges: refused exactly when revisions are missing, or run ahead of the table. */
    method ReplayChanges(stop: Option<nat>) returns (failed: bool, count: nat)
      requires table.Valid()
      requires state.revision <= |table.history| ==> ReplayedTo(state, table.history, table.contracts, state.revision)
      modifies this`state
      ensures !failed ==> Agrees(state, table.rows) && state.revision == table.sequence
      ensures !failed ==> Sized(state.graph, state.model, state.dimensions, table.contracts)
      ensures !failed ==> CanReplay(old(state).revision, table.sequence, table.pruned)
      ensures stop.None? && CanReplay(old(state).revision, table.sequence, table.pruned) ==> !failed
      ensures !failed && LastUpsert(table.history, old(state).revision).Some? ==>
        state.model == LastUpsert(table.history, old(state).revision).value
    {
      var start := state.revision;
      if table.sequence < start {
        return true, 0;
      }
      if table.sequence == start {
        FullyReplayedAgrees(state, table.history, table.contracts);
        return false, 0;
      }
      var entries := ChangesAfter(start);
      var switched;
      failed, switched, count := Visit(start, entries, stop);
      if failed || count < table.sequence - start {
        return true, count;
      }
      assert table.history[..|table.history|] == table.history;
      if switched != "" {
        RebuildModel(switched);
      } else {
        state := state.(revision := table.sequence);
        FullyReplayedAgrees(state, table.history, table.contracts);
      }
      if |state.graph| != 0 && state.model != "" && |state.tombstones| as real / |state.graph| as real > threshold {
        RebuildModel(state.model);
      }
    }

    // ------------------------------------------------------------------ opening

    /** loadSnapshot: graph and tombstones from the file, metadata from the truth as it is now. */
    method LoadSnapshot(file: SnapshotFile) returns (loaded: bool)
      requires table.Valid() && SnapshotsFaithful()
      requires file.Saved? && file.snapshot.revision <= table.sequence ==> file.snapshot in snapshots
      modifies this`state
      ensures loaded ==> file.Saved? && state.revision == file.snapshot.revision <= table.sequence
      ensures loaded ==> ReplayedTo(state, table.history, table.contracts, state.revision)
    {
      if !file.Saved? || file.snapshot.revision > table.sequence {
        return false;
      }
      var saved := file.snapshot;
      if saved.graph == map[] && (saved.model != "" || saved.dimensions != 0) {
        return false;
      }
      var metadata: map<Key, Option<int>> := map[];
      if saved.model != "" {
        metadata := map k | k in table.rows && table.rows[k].model == saved.model :: table.rows[k].timestamp;
      } else {
        TruthConforms(table.history, table.contracts);
      }
      state := State(saved.graph, saved.tombstones, metadata, saved.model, saved.dimensions, saved.revision);
      return true;
    }

    /**
     * OpenVectorIndex: from no snapshot, a damaged one, or any one ever written,
     * whatever was pruned since, the searchable set is the truth.
     */
    method Open(file: SnapshotFile, stop: Option<nat>, files: map<nat, Catalog.File>)
      returns (imported: bool, rebuilt: bool)
      requires table.Valid() && SnapshotsFaithful()
      requires file.Saved? && file.snapshot.revision <= table.sequence ==> file.snapshot in snapshots
      modifies this`state
      ensures Valid()
      ensures imported ==> file.Saved?
      ensures stop.None? && imported ==> (rebuilt <==> !CanReplay(file.snapshot.revision, table.sequence, table.pruned))
      ensures !imported ==> rebuilt
      ensures rebuilt && AnyListed(files, table.rows) ==> LatestIs(files, table.rows, state.model)
    {
      rebuilt := false;
      imported := LoadSnapshot(file);
      if imported {
        var count;
        rebuilt, count := ReplayChanges(stop);
      }
      if !imported || rebuilt {
        Rebuild("", files);
        rebuilt := true;
      }
    }

    // ------------------------------------------------------------------ serving

    /** The truth a request leaves when it succeeds. */
    ghost function Wanted(rows: map<Key, Vector>, request: Request): map<Key, Vector> {
      WithoutFile(rows, request.file) + if request.ReplaceVectors? then RowsOf(request.file, request.rows) else map[]
    }

    method WriteRows(request: Request) returns (error: Option<VectorError>)
      requires table.Valid()
      modifies table
      ensures table.Valid() && old(table.history) <= table.history && table.pruned == old(table.pruned)
      ensures Extends(old(table.contracts), table.contracts)
      ensures error.Some? ==>
        table.rows == old(table.rows) && table.history == old(table.history) && table.contracts == old(table.contracts)
      ensures error.None? ==> table.rows == Wanted(old(table.rows), request)
      ensures error.None? && request.ReplaceVectors? ==> ValidReplacement(request.model, request.rows)
      ensures error.None? && request.ReplaceVectors? ==>
        exists before :: old(table.history) <= before && table.history == before + AsChanges(request.file, request.rows)
    {
      match request {
        case ReplaceVectors(file, current, model, rows) => error := table.Replace(file, current, model, rows);
        case DeleteVectors(file, current) => error := table.DeleteFor(file, current);
      }
    }

    /** The durable half of a request: the truth changes, the graph is left ready to follow. */
    method WriteTruth(request: Request) returns (error: Option<VectorError>)
      requires Valid()
      modifies table
      ensures table.Valid() && SnapshotsFaithful()
      ensures state.revision <= |table.history| && ReplayedTo(state, table.history, table.contracts, state.revision)
      ensures error.Some? ==> Valid() && table.rows == old(table.rows)
      ensures error.None? ==> table.rows == Wanted(old(table.rows), request)
      ensures error.None? && request.ReplaceVectors? ==>
        LastUpsert(table.history, state.revision) == Some(request.model) && request.model != ""
    {
      ghost var history, contracts := table.history, table.contracts;
      AgreementIsReplayed(state, history, contracts);
      error := WriteRows(request);
      SnapshotsStay(snapshots, history, contracts, table.history, table.contracts);
      ReadyForMore(state, history, contracts, table.history, table.contracts);
      if error.None? && request.ReplaceVectors? {
        ReplacementIsLast(history, table.history, request.file, request.model, request.rows);
      }
    }

    /** applyRequest: write truth, then bring the graph after it, rebuilding the written model if need be. */
    method ApplyRequest(request: Request, stop: Option<nat>, files: map<nat, Catalog.File>)
      returns (error: Option<VectorError>)
      requires Valid()
      modifies this`state, table
      ensures Valid() && snapshots == old(snapshots)
      ensures error.Some? ==> state == old(state) && table.rows == old(table.rows)
      ensures error.None? ==> table.rows == Wanted(old(table.rows), request)
      ensures error.None? && request.ReplaceVectors? ==> state.model == request.model
    {
      error := WriteTruth(request);
      if error.Some? {
        return;
      }
      var failed, count := ReplayChanges(stop);
      if failed {
        Rebuild(if request.ReplaceVectors? then request.model else "", files);
      }
    }

    /** SnapshotTo; the prune after the rename may never happen. */
    method SnapshotTo(prunes: bool) returns (saved: Snapshot)
      requires Valid()
      modifies this`snapshots, table`log, table`pruned
      ensures Valid() && saved == SnapshotOf(state) && snapshots == old(snapshots) + {saved}
    {
      saved := SnapshotOf(state);
      AgreementIsReplayed(state, table.history, table.contracts);
      snapshots := snapshots + {saved};
      if prunes {
        table.Prune(state.revision);
      }
    }

    /**
     * Search over an exact nearest-neighbour graph: `nodes` is the graph's
     * answer to the widened request.
     */
    method Search(model: string, width: nat, distance: Key -> real, topK: int, nodes: seq<Key>)
      returns (outcome: SearchOutcome)
      requires Valid()
      requires Nearest(state.graph.Keys, distance, Requested(Clamped(topK), |state.tombstones|, |state.graph|), nodes)
      ensures outcome.Hits? <==> state.graph == map[] || (model == state.model && width == state.dimensions)
      ensures outcome.Hits? ==>
        && Nearest(Searchable(state), distance, Min(Clamped(topK), |Searchable(state)|), KeysOf(outcome.hits))
        && forall i :: 0 <= i < |outcome.hits| ==>
             outcome.hits[i].key in table.rows && outcome.hits[i].timestamp == table.rows[outcome.hits[i].key].timestamp
    {
      if |state.graph| == 0 {
        assert state.graph.Keys == {};
        assert Searchable(state) == {};
        return Hits([]);
      }
      if model != state.model {
        return ModelMismatch;
      }
      if width != state.dimensions {
        return DimensionMismatch;
      }
      assert Searchable(state) == state.graph.Keys - state.tombstones;
      TombstonesAreOutnumbered(state.graph.Keys, state.tombstones, distance, Clamped(topK), nodes);
      var hits := Filter(nodes, Clamped(topK));
      return Hits(hits);
    }

    /** The loop over the graph's answer. */
    method Filter(nodes: seq<Key>, limit: nat) returns (hits: seq<Hit>)
      requires Agrees(state, table.rows)
      requires Min(limit, |Searchable(state)|) <= |Kept(nodes, Searchable(state))| <= |Searchable(state)|
      ensures KeysOf(hits) == Kept(nodes, Searchable(state))[..Min(limit, |Searchable(state)|)]
      ensures forall i :: 0 <= i < |hits| ==>
        hits[i].key in table.rows && hits[i].timestamp == table.rows[hits[i].key].timestamp
    {
      hits := [];
      var k := 0;
      while k < |nodes| && |hits| < limit
        invariant k <= |nodes| && |hits| <= limit
        invariant KeysOf(hits) == Kept(nodes[..k], Searchable(state))
        invariant forall i :: 0 <= i < |hits| ==>
          hits[i].key in table.rows && hits[i].timestamp == table.rows[hits[i].key].timestamp
      {
        assert nodes[..k + 1][..k] == nodes[..k];
        if nodes[k] !in state.tombstones && nodes[k] in state.metadata {
          assert nodes[k] in Searchable(state);
          hits := hits + [Hit(nodes[k], state.metadata[nodes[k]])];
        }
        k := k + 1;
      }
      KeptPrefix(nodes, Searchable(state), k);
      assert k == |nodes| ==> nodes[..k] == nodes;
      assert |KeysOf(hits)| == |hits|;
    }
  }

  /** Replay can bridge from a revision to the table's when nothing in between is pruned. */
  predicate CanReplay(start: nat, sequence: nat, pruned: nat) {
    start == sequence || (start < sequence && pruned <= start)
  }

  function Clamped(topK: int): nat {
    if topK <= 0 then 20 else Min(topK, 1000)
  }

  function KeysOf(hits: seq<Hit>): seq<Key> {
    seq(|hits|, i requires 0 <= i < |hits| => hits[i].key)
  }

  lemma {:induction false} KeptPrefix(nodes: seq<Key>, live: set<Key>, k: nat)
    requires k <= |nodes|
    ensures Kept(nodes[..k], live) <= Kept(nodes, live)
    decreases |nodes| - k
  {
    if k < |nodes| {
      KeptPrefix(nodes, live, k + 1);
      assert nodes[..k + 1][..k] == nodes[..k];
    } else {
      assert nodes[..k] == nodes;
    }
  }

  /** What a snapshot says about its revision stays true as the history grows. */
  lemma SnapshotsStay(
    snapshots: set<Snapshot>, history: seq<Change>, contracts: map<string, nat>, longer: seq<Change>, more: map<string,
    nat>)
    requires history <= longer && Extends(contracts, more) && forall s :: s in snapshots ==>
      Faithful(s, history, contracts)
    ensures forall s :: s in snapshots ==> Faithful(s, longer, more)
  {
    forall s | s in snapshots
      ensures Faithful(s, longer, more)
    {
      assert longer[..s.revision] == history[..s.revision];
    }
  }

  lemma ReplacementIsLast(before: seq<Change>, after: seq<Change>, file: nat, model: string, rows: seq<Row>)
    requires ValidReplacement(model, rows)
    requires exists middle :: before <= middle && after == middle + AsChanges(file, rows)
    ensures LastUpsert(after, |before|) == Some(model)
  {
    var middle :| before <= middle && after == middle + AsChanges(file, rows);
    assert after[|after| - 1] == AsChanges(file, rows)[|rows| - 1];
  }

  ghost predicate Refuses(s: State, change: Change) {
    change.Upserted? && (change.vector.model != s.model
      || (s.dimensions != 0 && s.dimensions != |change.vector.values|))
  }

  /** What replay knows after revision e: the state is current, or which model to rebuild. */
  ghost predicate Replaying(
    s: State, history: seq<Change>, contracts: map<string, nat>, start: nat, e: nat, switched: string)
    requires start <= e <= |history|
  {
    if switched != "" then LastUpsert(history[..e], start) == Some(switched)
    else
      && ReplayedTo(s, history, contracts, e)
      && (LastUpsert(history[..e], start).Some? ==> LastUpsert(history[..e], start) == Some(s.model))
  }

  lemma ReplayingNext(s: State, history: seq<Change>, contracts: map<string, nat>, start: nat, e: nat, switched: string)
    requires start <= e < |history| && HistoryConforms(history, contracts)
    requires Replaying(s, history, contracts, start, e, switched)
    ensures var c := history[e];
      var active := if switched == "" then s.model else switched;
      if c.Upserted? && c.vector.model != active
        then c.vector.model != "" && Replaying(s, history, contracts, start, e + 1, c.vector.model)
      else if switched != "" then Replaying(s, history, contracts, start, e + 1, switched)
      else !Refuses(s, c) && forall r :: Replaying(Applied(s, c).(revision := r), history, contracts, start, e + 1, "")
  {
    var c := history[e];
    LastUpsertNext(history, start, e);
    assert c.Upserted? ==> Conforms(c.vector, contracts);
    if switched == "" && (c.Upserted? ==> c.vector.model == s.model) {
      ReplayOne(s, history, contracts, e);
      forall r
        ensures ReplayedTo(Applied(s, c).(revision := r), history, contracts, e + 1)
      {
        RevisionIsFree(Applied(s, c), history, contracts, e + 1, r);
      }
    }
  }

  lemma RevisionIsFree(s: State, history: seq<Change>, contracts: map<string, nat>, e: nat, r: nat)
    requires ReplayedTo(s, history, contracts, e)
    ensures ReplayedTo(s.(revision := r), history, contracts, e)
  {
  }

  /** The model of the last upsert above a revision. */
  ghost function LastUpsert(history: seq<Change>, from: nat): Option<string> {
    if |history| <= from then None
    else if history[|history| - 1].Upserted? then Some(history[|history| - 1].vector.model)
    else LastUpsert(history[..|history| - 1], from)
  }

  lemma LastUpsertNext(history: seq<Change>, from: nat, e: nat)
    requires from <= e < |history|
    ensures LastUpsert(history[..e + 1], from) ==
      if history[e].Upserted? then Some(history[e].vector.model) else LastUpsert(history[..e], from)
  {
    assert history[..e + 1][..e] == history[..e];
  }
}
