/**
 * Vector truth: the durable rows, the change log its triggers emit, and the
 * pruning that snapshots allow.
 */
module VectorTruth {
  import opened Basics

  // --------------------------------------------------------------------- keys

  datatype Key = Key(file: nat, frame: nat)

  const FRAMES := 65536
  const MAX_FILE := 0xFFFF_FFFF_FFFF

  /** PackVectorKey, with the shift and the disjunction of 64-bit words written as arithmetic. */
  function Pack(file: int, frame: int): Option<nat> {
    if 0 < file <= MAX_FILE && 0 <= frame < FRAMES then Some(file * FRAMES + frame) else None
  }

  /** UnpackVectorKey. */
  function Unpack(packed: nat): Key {
    Key(packed / FRAMES, packed % FRAMES)
  }

  /** Every key in range packs into 64 bits and unpacks to itself, and nothing else packs to it. */
  lemma PackRoundTrip(key: Key, packed: nat)
    ensures Pack(key.file, key.frame) == Some(packed)
      <==> FRAMES <= packed < 0x1_0000_0000_0000_0000 && Unpack(packed) == key
  {
    assert FRAMES * (MAX_FILE + 1) == 0x1_0000_0000_0000_0000;
  }

  // -------------------------------------------------------------------- truth

  datatype Vector = Vector(values: seq<real>, timestamp: Option<int>, model: string)

  datatype Change = Upserted(key: Key, vector: Vector) | Removed(key: Key)

  datatype Entry = Entry(revision: nat, change: Change)

  function Step(truth: map<Key, Vector>, change: Change): map<Key, Vector> {
    if change.Upserted? then truth[change.key := change.vector] else truth - {change.key}
  }

  /** The rows a history of changes leaves. */
  function TruthOf(history: seq<Change>): map<Key, Vector> {
    if history == [] then map[] else Step(TruthOf(history[..|history| - 1]), history[|history| - 1])
  }

  lemma TruthOfNext(history: seq<Change>, change: Change)
    ensures TruthOf(history + [change]) == Step(TruthOf(history), change)
  {
    assert (history + [change])[..|history|] == history;
  }

  ghost predicate Quiet(history: seq<Change>, from: nat, key: Key)
    requires from <= |history|
  {
    forall i :: from <= i < |history| ==> history[i].key != key
  }

  /** A row no change has touched since is still what it was. */
  lemma {:induction false} QuietRowsStay(history: seq<Change>, from: nat, key: Key)
    requires from <= |history| && Quiet(history, from, key)
    ensures key in TruthOf(history) <==> key in TruthOf(history[..from])
    ensures key in TruthOf(history) ==> TruthOf(history)[key] == TruthOf(history[..from])[key]
    decreases |history|
  {
    if from == |history| {
      assert history[..from] == history;
    } else {
      var shorter := history[..|history| - 1];
      QuietRowsStay(shorter, from, key);
      assert shorter[..from] == history[..from];
    }
  }

  ghost function EntriesAfter(history: seq<Change>, from: nat): seq<Entry>
    requires from <= |history|
  {
    seq(|history| - from, i requires 0 <= i < |history| - from => Entry(from + i + 1, history[from + i]))
  }

  /** The durable (model, dimensions) contract every stored vector obeys. */
  predicate Conforms(v: Vector, contracts: map<string, nat>) {
    v.model != "" && v.model in contracts && contracts[v.model] == |v.values| && v.values != []
  }

  ghost predicate Extends(before: map<string, nat>, after: map<string, nat>) {
    forall m :: m in before ==> m in after && after[m] == before[m]
  }

  ghost predicate HistoryConforms(history: seq<Change>, contracts: map<string, nat>) {
    forall i :: 0 <= i < |history| && history[i].Upserted? ==> Conforms(history[i].vector, contracts)
  }

  lemma {:induction false} TruthConforms(history: seq<Change>, contracts: map<string, nat>)
    requires HistoryConforms(history, contracts)
    ensures forall k :: k in TruthOf(history) ==> Conforms(TruthOf(history)[k], contracts)
    decreases |history|
  {
    if history != [] {
      TruthConforms(history[..|history| - 1], contracts);
    }
  }

  // ------------------------------------------------------------------- writers

  datatype VectorError = InvalidVectors | Stale | ContractMismatch

  datatype Row = Row(frame: nat, vector: Vector)

  predicate ValidReplacement(model: string, rows: seq<Row>) {
    && model != "" && rows != []
    && forall i :: 0 <= i < |rows| ==>
         rows[i].frame < FRAMES && rows[i].vector.model == model && rows[i].vector.values != []
         && (rows[i].vector.timestamp.Some? ==> rows[i].vector.timestamp.value >= 0)
  }

  function AsChanges(file: nat, rows: seq<Row>): seq<Change> {
    seq(|rows|, i requires 0 <= i < |rows| => Upserted(Key(file, rows[i].frame), rows[i].vector))
  }

  /** INSERT ... ON CONFLICT DO UPDATE of each row in turn: the last of a frame wins. */
  function RowsOf(file: nat, vectors: seq<Row>): map<Key, Vector> {
    if vectors == [] then map[]
    else RowsOf(file, vectors[..|vectors| - 1])[Key(file,
      vectors[|vectors| - 1].frame) := vectors[|vectors| - 1].vector]
  }

  /** Writing rows one by one adds exactly them. */
  lemma {:induction false} WritesAdd(before: seq<Change>, file: nat, vectors: seq<Row>)
    ensures TruthOf(before + AsChanges(file, vectors)) == TruthOf(before) + RowsOf(file, vectors)
    decreases |vectors|
  {
    if vectors == [] {
      assert before + AsChanges(file, vectors) == before;
    } else {
      var shorter := vectors[..|vectors| - 1];
      var last := vectors[|vectors| - 1];
      WritesAdd(before, file, shorter);
      TruthOfNext(before + AsChanges(file, shorter), Upserted(Key(file, last.frame), last.vector));
      assert before + AsChanges(file, vectors) == before + AsChanges(file,
        shorter) + [Upserted(Key(file, last.frame), last.vector)];
    }
  }

  function WithoutFile(rows: map<Key, Vector>, file: nat): map<Key, Vector> {
    map k | k in rows && k.file != file :: rows[k]
  }

  class Table {
    var rows: map<Key, Vector>
    var log: seq<Entry>
    var sequence: nat
    var contracts: map<string, nat>
    ghost var history: seq<Change>
    ghost var pruned: nat

    ghost predicate Valid()
      reads this
    {
      && rows == TruthOf(history) && sequence == |history| && pruned <= |history|
      && log == EntriesAfter(history, pruned) && HistoryConforms(history, contracts)
    }

    constructor ()
      ensures Valid() && history == [] && rows == map[]
    {
      rows, log, sequence, contracts, history, pruned := map[], [], 0, map[], [], 0;
    }

    /** One row change and the log entry its trigger writes in the same statement. */
    method Write(change: Change)
      requires Valid() && (change.Upserted? ==> Conforms(change.vector, contracts))
      modifies this`rows, this`log, this`sequence, this`history
      ensures Valid() && history == old(history) + [change]
    {
      TruthOfNext(history, change);
      rows := Step(rows, change);
      sequence := sequence + 1;
      log := log + [Entry(sequence, change)];
      history := history + [change];
    }

    /** requireVectorContractsTx: the first use of a model fixes its width. */
    method RequireContract(model: string, vectors: seq<Row>) returns (ok: bool)
      requires Valid() && ValidReplacement(model, vectors)
      modifies this`contracts
      ensures ok <==> forall i :: 0 <= i < |vectors| ==>
        |vectors[i].vector.values| == if model in old(contracts) then old(contracts)[model]
          else |vectors[0].vector.values|
      ensures !ok ==> contracts == old(contracts)
      ensures Extends(old(contracts), contracts)
      ensures ok ==> Valid() && forall i :: 0 <= i < |vectors| ==> Conforms(vectors[i].vector, contracts)
    {
      var width := if model in contracts then contracts[model] else |vectors[0].vector.values|;
      for k := 0 to |vectors|
        invariant forall i :: 0 <= i < k ==> |vectors[i].vector.values| == width
      {
        if |vectors[k].vector.values| != width {
          return false;
        }
      }
      contracts := contracts[model := width];
      return true;
    }

    /** DELETE FROM vectors WHERE file_id=?. */
    method Clear(file: nat)
      requires Valid()
      modifies this`rows, this`log, this`sequence, this`history
      ensures Valid() && old(history) <= history
      ensures rows == WithoutFile(old(rows), file)
    {
      var rest := set k | k in rows && k.file == file;
      while rest != {}
        invariant Valid() && old(history) <= history
        invariant rest == set k | k in rows && k.file == file
        invariant forall k :: k in rows ==> k in old(rows) && rows[k] == old(rows)[k]
        invariant forall k :: k in old(rows) && k.file != file ==> k in rows
        decreases rest
      {
        var k :| k in rest;
        TruthOfNext(history, Removed(k));
        Write(Removed(k));
        rest := rest - {k};
      }
    }

    /** ReplaceVectorsForFileAndVersion; `current` is the outcome of its generation fence. */
    method Replace(file: nat, current: bool, model: string, vectors: seq<Row>) returns (error: Option<VectorError>)
      requires Valid()
      modifies this
      ensures Valid() && pruned == old(pruned) && Extends(old(contracts), contracts)
      ensures error.Some? ==> rows == old(rows) && history == old(history) && contracts == old(contracts)
      ensures error.None? ==> ValidReplacement(model, vectors) && current
      ensures error.None? ==> exists middle :: old(history) <= middle && history == middle + AsChanges(file, vectors)
      ensures error.None? ==> rows == WithoutFile(old(rows), file) + RowsOf(file, vectors)
    {
      if !ValidReplacement(model, vectors) || file == 0 {
        return Some(InvalidVectors);
      }
      if !current {
        return Some(Stale);
      }
      var ok := RequireContract(model, vectors);
      if !ok {
        return Some(ContractMismatch);
      }
      Clear(file);
      WritesAdd(history, file, vectors);
      Put(file, vectors);
      return None;
    }

    method Put(file: nat, vectors: seq<Row>)
      requires Valid() && forall i :: 0 <= i < |vectors| ==> Conforms(vectors[i].vector, contracts)
      modifies this`rows, this`log, this`sequence, this`history
      ensures Valid() && history == old(history) + AsChanges(file, vectors)
    {
      for k := 0 to |vectors|
        invariant Valid() && history == old(history) + AsChanges(file, vectors)[..k]
      {
        TruthOfNext(history, AsChanges(file, vectors)[k]);
        Write(Upserted(Key(file, vectors[k].frame), vectors[k].vector));
        assert AsChanges(file, vectors)[..k + 1] == AsChanges(file, vectors)[..k] + [AsChanges(file, vectors)[k]];
      }
      assert AsChanges(file, vectors)[..|vectors|] == AsChanges(file, vectors);
    }

    /** DeleteVectorsForFile. */
    method DeleteFor(file: nat, current: bool) returns (error: Option<VectorError>)
      requires Valid()
      modifies this`rows, this`log, this`sequence, this`history
      ensures Valid() && old(history) <= history
      ensures error.Some? ==> rows == old(rows) && history == old(history)
      ensures error.None? ==> rows == WithoutFile(old(rows), file)
    {
      if !current {
        return Some(Stale);
      }
      Clear(file);
      return None;
    }

    /** PruneVectorChangesThrough. */
    method Prune(revision: nat)
      requires Valid()
      modifies this`log, this`pruned
      ensures Valid() && pruned == Max(old(pruned), Min(revision, |history|))
    {
      var kept: seq<Entry> := [];
      for k := 0 to |log|
        invariant Valid() && pruned == old(pruned) && log == old(log)
        invariant kept == if pruned + k <= revision then [] else log[Max(0, revision - pruned)..k]
      {
        if log[k].revision > revision {
          kept := kept + [log[k]];
        }
      }
      log := kept;
      pruned := Max(pruned, Min(revision, |history|));
    }
  }
}
