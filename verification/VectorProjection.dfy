/**
 * The vector projection: a graph with tombstones and metadata that a snapshot,
 * the change log and the truth table together bring back after any restart.
 */
module VectorProjection {
  import opened Basics
  import opened VectorTruth

  /** The graph is a map to an exact nearest-neighbour structure. */
  datatype State = State(
    graph: map<Key, seq<real>>, tombstones: set<Key>, metadata: map<Key, Option<int>>,
    model: string, dimensions: nat, revision: nat)

  const NO_STATE := State(map[], {}, map[], "", 0, 0)

  /** A snapshot keeps everything but the metadata. */
  datatype Snapshot = Snapshot(
    revision: nat, model: string, dimensions: nat, graph: map<Key, seq<real>>, tombstones: set<Key>)

  datatype SnapshotFile = Missing | Corrupt | Saved(snapshot: Snapshot)

  function SnapshotOf(s: State): Snapshot {
    Snapshot(s.revision, s.model, s.dimensions, s.graph, s.tombstones)
  }

  // ---------------------------------------------------------------- agreement

  ghost predicate IsRow(truth: map<Key, Vector>, model: string, key: Key) {
    key in truth && truth[key].model == model
  }

  /** Graph minus tombstones is exactly the model's rows. */
  ghost predicate Synced(graph: map<Key, seq<real>>, tombstones: set<Key>, model: string, truth: map<Key, Vector>) {
    && tombstones <= graph.Keys
    && (forall k :: k in graph && k !in tombstones <==> IsRow(truth, model, k))
    && (forall k :: k in graph && k !in tombstones ==> graph[k] == truth[k].values)
  }

  ghost predicate Sized(graph: map<Key, seq<real>>, model: string, dimensions: nat, contracts: map<string, nat>) {
    && (dimensions == 0 ==> graph == map[])
    && (dimensions != 0 ==> model in contracts && contracts[model] == dimensions)
    && (model == "" ==> dimensions == 0)
  }

  ghost predicate Faithful(s: Snapshot, history: seq<Change>, contracts: map<string, nat>) {
    && s.revision <= |history|
    && Synced(s.graph, s.tombstones, s.model, TruthOf(history[..s.revision]))
    && Sized(s.graph, s.model, s.dimensions, contracts)
  }

  /** What Search can return: live nodes that carry metadata. */
  ghost function Searchable(s: State): set<Key> {
    set k | k in s.graph && k !in s.tombstones && k in s.metadata
  }

  /** The searchable set is the truth rows of the state's model, values and timestamps included. */
  ghost predicate Agrees(s: State, truth: map<Key, Vector>) {
    && (forall k :: k in Searchable(s) <==> IsRow(truth, s.model, k))
    && (forall k :: k in Searchable(s) ==> s.graph[k] == truth[k].values && s.metadata[k] == truth[k].timestamp)
    && s.tombstones <= s.graph.Keys
    && s.metadata.Keys == s.graph.Keys - s.tombstones
  }

  /** Metadata is already right wherever no change is still to be replayed. */
  ghost predicate MetadataReady(s: State, history: seq<Change>, from: nat)
    requires from <= |history|
  {
    forall k :: Quiet(history, from, k) ==>
      && (k in s.metadata <==> IsRow(TruthOf(history), s.model, k))
      && (k in s.metadata ==> s.metadata[k] == TruthOf(history)[k].timestamp)
  }

  ghost predicate ReplayedTo(s: State, history: seq<Change>, contracts: map<string, nat>, e: nat) {
    && e <= |history|
    && Synced(s.graph, s.tombstones, s.model, TruthOf(history[..e]))
    && Sized(s.graph, s.model, s.dimensions, contracts)
    && MetadataReady(s, history, e)
  }

  lemma FullyReplayedAgrees(s: State, history: seq<Change>, contracts: map<string, nat>)
    requires ReplayedTo(s, history, contracts, |history|)
    ensures Agrees(s, TruthOf(history))
  {
    assert history[..|history|] == history;
    forall k: Key
      ensures Quiet(history, |history|, k)
    {
    }
  }

  lemma AgreementIsReplayed(s: State, history: seq<Change>, contracts: map<string, nat>)
    requires Agrees(s, TruthOf(history)) && Sized(s.graph, s.model, s.dimensions, contracts)
    ensures ReplayedTo(s, history, contracts, |history|)
  {
    assert history[..|history|] == history;
    forall k
      ensures k in s.graph && k !in s.tombstones <==> k in Searchable(s)
    {
    }
  }

  /** A state that agreed at revision e is ready to replay whatever came after. */
  lemma ReadyForMore(
    s: State, history: seq<Change>, contracts: map<string, nat>, longer: seq<Change>, more: map<string, nat>)
    requires ReplayedTo(s, history, contracts, |history|) && history <= longer
    requires Extends(contracts, more)
    ensures ReplayedTo(s, longer, more, |history|)
  {
    assert history[..|history|] == history && longer[..|history|] == history;
    forall k | Quiet(longer, |history|, k)
      ensures (k in s.metadata <==> IsRow(TruthOf(longer), s.model, k))
        && (k in s.metadata ==> s.metadata[k] == TruthOf(longer)[k].timestamp)
    {
      QuietRowsStay(longer, |history|, k);
      assert Quiet(history, |history|, k);
    }
  }

  // ------------------------------------------------------------ replaying a change

  function Applied(s: State, change: Change): State {
    match change
    case Upserted(k, v) =>
      s.(graph := s.graph[k := v.values], tombstones := s.tombstones - {k}, metadata := s.metadata[k := v.timestamp],
         dimensions := |v.values|)
    case Removed(k) =>
      s.(tombstones := if k in s.graph then s.tombstones + {k} else s.tombstones, metadata := s.metadata - {k})
  }

  lemma AppliedSynced(s: State, truth: map<Key, Vector>, change: Change)
    requires Synced(s.graph, s.tombstones, s.model, truth)
    requires change.Upserted? ==> change.vector.model == s.model
    ensures var t := Applied(s, change); Synced(t.graph, t.tombstones, t.model, Step(truth, change))
  {
  }

  lemma AppliedReady(s: State, history: seq<Change>, e: nat)
    requires e < |history| && MetadataReady(s, history, e)
    requires history[e].Upserted? ==> history[e].vector.model == s.model
    ensures MetadataReady(Applied(s, history[e]), history, e + 1)
  {
    var t := Applied(s, history[e]);
    TruthOfPrefix(history, e);
    forall k | Quiet(history, e + 1, k)
      ensures (k in t.metadata <==> IsRow(TruthOf(history), t.model, k))
        && (k in t.metadata ==> t.metadata[k] == TruthOf(history)[k].timestamp)
    {
      QuietRowsStay(history, e + 1, k);
      assert k != history[e].key ==> Quiet(history, e, k);
    }
  }

  lemma TruthOfPrefix(history: seq<Change>, e: nat)
    requires e < |history|
    ensures TruthOf(history[..e + 1]) == Step(TruthOf(history[..e]), history[e])
  {
    assert history[..e + 1] == history[..e] + [history[e]];
    TruthOfNext(history[..e], history[e]);
  }

  /** One logged change carries the state to the next revision. */
  lemma ReplayOne(s: State, history: seq<Change>, contracts: map<string, nat>, e: nat)
    requires e < |history| && ReplayedTo(s, history, contracts, e) && HistoryConforms(history, contracts)
    requires history[e].Upserted? ==> history[e].vector.model == s.model
    ensures ReplayedTo(Applied(s, history[e]), history, contracts, e + 1)
  {
    AppliedSynced(s, TruthOf(history[..e]), history[e]);
    TruthOfPrefix(history, e);
    AppliedReady(s, history, e);
  }

  // ------------------------------------------------------------- nearest neighbours

  /** `result` is n of the keys, nearest first, and none left out is nearer. */
  ghost predicate Nearest(keys: set<Key>, distance: Key -> real, n: nat, result: seq<Key>) {
    && |result| == n && NoDuplicates(result) && (forall k :: k in result ==> k in keys)
    && (forall i, j :: 0 <= i < j < |result| ==> distance(result[i]) <= distance(result[j]))
    && (forall i, k :: 0 <= i < |result| && k in keys && k !in result ==> distance(result[i]) <= distance(k))
  }

  function Kept(nodes: seq<Key>, live: set<Key>): seq<Key> {
    if nodes == [] then []
    else Kept(nodes[..|nodes| - 1], live) + if nodes[|nodes| - 1] in live then [nodes[|nodes| - 1]] else []
  }

  /** The k-th kept node is one of the nodes, and order is kept. */
  lemma {:induction false} KeptOrder(nodes: seq<Key>, live: set<Key>, distance: Key -> real)
    requires NoDuplicates(nodes)
    requires forall i, j :: 0 <= i < j < |nodes| ==> distance(nodes[i]) <= distance(nodes[j])
    ensures var kept := Kept(nodes, live);
      && NoDuplicates(kept) && (forall k :: k in kept <==> k in nodes && k in live)
      && (forall i, j :: 0 <= i < j < |kept| ==> distance(kept[i]) <= distance(kept[j]))
    decreases |nodes|
  {
    if nodes != [] {
      var shorter := nodes[..|nodes| - 1];
      KeptOrder(shorter, live, distance);
      var last := nodes[|nodes| - 1];
      assert nodes == shorter + [last];
      assert last !in shorter;
      assert forall k :: k in shorter ==> distance(k) <= distance(last);
    }
  }

  lemma {:induction false} KeptCount(nodes: seq<Key>, live: set<Key>, dead: set<Key>)
    requires NoDuplicates(nodes) && forall k :: k in nodes ==> k in live || k in dead
    ensures |nodes| - |dead| <= |Kept(nodes, live)| <= |nodes|
    decreases |nodes|
  {
    if nodes != [] {
      var shorter := nodes[..|nodes| - 1];
      var last := nodes[|nodes| - 1];
      assert nodes == shorter + [last] && last !in shorter;
      if last in live {
        KeptCount(shorter, live, dead);
      } else {
        KeptCount(shorter, live, dead - {last});
      }
    }
  }

  function Requested(topK: nat, tombstones: nat, size: nat): nat {
    Min(topK + tombstones, size)
  }

  /** Asking for topK more nodes than there are tombstones finds the nearest live ones. */
  lemma TombstonesAreOutnumbered(
    graph: set<Key>, tombstones: set<Key>, distance: Key -> real, topK: nat, nodes: seq<Key>)
    requires tombstones <= graph && Nearest(graph, distance, Requested(topK, |tombstones|, |graph|), nodes)
    ensures var live := graph - tombstones;
      var kept := Kept(nodes, live);
      && Min(topK, |live|) <= |kept| <= |live|
      && Nearest(live, distance, Min(topK, |live|), kept[..Min(topK, |live|)])
  {
    var live := graph - tombstones;
    var kept := Kept(nodes, live);
    KeptOrder(nodes, live, distance);
    KeptCount(nodes, live, tombstones);
    DistinctWithin(kept, live);
    var n := Min(topK, |live|);
    var hits := kept[..n];
    forall i, k | 0 <= i < n && k in live && k !in hits
      ensures distance(hits[i]) <= distance(k)
    {
      if k in kept {
        var j :| 0 <= j < |kept| && kept[j] == k;
        assert j >= n;
      } else {
        assert hits[i] in nodes && k !in nodes;
      }
    }
  }
}
