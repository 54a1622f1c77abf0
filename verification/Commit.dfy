/**
 * The commit path as a state machine: the catalog, the text index and the
 * writer's three separate steps, with any catalog transaction and any crash
 * between them. The index agrees with the catalog.
 */
module Commit {
  import opened Basics
  import opened Catalog
  import Queue
  import opened QueueLeases
  import QueueRuns
  import opened Projection
  import Store

  datatype Phase =
    | Idle
    | HasRead(requests: seq<CommitRequest>, current: map<nat, int>)
    | Applied(requests: seq<CommitRequest>, current: map<nat, int>)

  /** `newest` is history: the generation of the last document ever applied for a file. */
  datatype System = System(db: Db, docs: seq<Document>, phase: Phase, newest: map<nat, int>)

  datatype Step =
    | CatalogStep(action: QueueRuns.Action)
    | ReadGenerations(requests: seq<CommitRequest>)
    | ApplyBatch(native: NativeOutcome)
    | Record(now: int)
    | RecordLost
    | Crash

  /** The lines of a receipt, as the recorder writes them for the store. */
  function Item(r: CommitReceipt, now: int): Queue.Receipt {
    Queue.Receipt(r.taskId, r.fileId, r.generation, r.stale,
      if r.upsert then Indexed else Deleted, if r.upsert then Some(now) else None)
  }

  function Items(receipts: seq<CommitReceipt>, now: int): seq<Queue.Receipt> {
    seq(|receipts|, i requires 0 <= i < |receipts| => Item(receipts[i], now))
  }

  /** RecordCommitted: one store transaction for the whole batch. */
  method RecordCommitted(durable: Store.Store, receipts: seq<CommitReceipt>, now: int)
    returns (error: Option<StoreError>)
    requires durable.Valid()
    modifies durable
    ensures durable.Valid()
    ensures durable.View() == After(old(durable.View()), Queue.CompleteBatch(old(durable.View()), Items(receipts, now)))
    ensures error.None? <==> Queue.CompleteBatch(old(durable.View()), Items(receipts, now)).Committed?
  {
    var items: seq<Queue.Receipt> := [];
    for k := 0 to |receipts|
      invariant items == Items(receipts[..k], now)
      invariant durable.Valid() && durable.View() == old(durable.View())
    {
      var status := if receipts[k].upsert then Indexed else Deleted;
      var indexedAt := if receipts[k].upsert then Some(now) else None;
      items := items + [Queue.Receipt(receipts[k].taskId, receipts[k].fileId, receipts[k].generation,
        receipts[k].stale, status, indexedAt)];
    }
    assert receipts[..|receipts|] == receipts;
    error := durable.CompleteBatch(items);
  }

  ghost function Generations(files: map<nat, File>, requests: seq<CommitRequest>): map<nat, int> {
    map f | f in files && exists r :: r in requests && FileOf(r.mutation) == f :: files[f].generation
  }

  /** Deletes come with a task: projection-only requests refresh failed files. */
  ghost predicate OnlyTasksDelete(requests: seq<CommitRequest>) {
    forall r :: r in requests && r.taskId.None? ==> r.mutation.UpsertDocument?
  }

  ghost function ReceiptsOf(phase: Phase): seq<CommitReceipt>
    requires phase.Applied?
  {
    Receipts(phase.requests, phase.current, |phase.requests|)
  }

  ghost function Recorded(s: System, now: int): Outcome
    requires s.phase.Applied?
  {
    Queue.CompleteBatch(s.db, Items(ReceiptsOf(s.phase), now))
  }

  ghost predicate Enabled(s: System, step: Step) {
    match step
    case CatalogStep(action) => !action.CommitReceipts? && QueueRuns.Enabled(s.db, action)
    case ReadGenerations(requests) => s.phase.Idle? && OnlyTasksDelete(requests)
    case ApplyBatch(native) => s.phase.HasRead? && (Batch(s.phase.requests, s.phase.current) == [] ==> native.Landed?)
    case Record(_) => s.phase.Applied?
    case RecordLost => s.phase.Applied?
    case Crash => true
  }

  ghost function Newest(s: System): map<nat, int>
    requires !s.phase.Idle?
  {
    map f | f in s.newest.Keys + Files(Batch(s.phase.requests, s.phase.current))
      && (f in s.newest || Upserts(s.phase, f)) ::
      if Upserts(s.phase, f) then Final(s.phase.requests, s.phase.current, f).value.document.generation else s.newest[f]
  }

  ghost predicate Upserts(phase: Phase, f: nat)
    requires !phase.Idle?
  {
    Final(phase.requests, phase.current, f).Some? && Final(phase.requests, phase.current, f).value.UpsertDocument?
  }

  ghost function Next(s: System, step: Step, limit: nat): System
    requires Enabled(s, step)
  {
    match step
    case CatalogStep(action) => s.(db := QueueRuns.Perform(s.db, action, limit))
    case ReadGenerations(requests) => s.(phase := HasRead(requests, Generations(s.db.files, requests)))
    case ApplyBatch(native) =>
      if native.Missed? then s.(phase := Idle) else
      System(s.db, ApplyNative(s.docs, Batch(s.phase.requests, s.phase.current)),
        if native.Landed? then Applied(s.phase.requests, s.phase.current) else Idle, Newest(s))
    case Record(now) => s.(db := After(s.db, Recorded(s, now)), phase := Idle)
    case RecordLost => s.(phase := Idle)
    case Crash => s.(phase := Idle)
  }

  // -------------------------------------------------------------- the invariant

  ghost predicate Shown(docs: seq<Document>, f: nat, generation: int) {
    |DocsOf(docs, f)| == 1 && DocsOf(docs, f)[0].generation == generation
  }

  /** The batch in hand deletes a file that the catalog still shows. */
  ghost predicate DeletesVisible(s: System, f: nat) {
    && !s.phase.Idle? && f in s.db.files && Visible(s.db.files[f])
    && Final(s.phase.requests, s.phase.current, f).Some?
    && Final(s.phase.requests, s.phase.current, f).value.DeleteDocument?
  }

  /** If the catalog shows the file, it has a document of exactly its generation. */
  ghost predicate AgreesAt(s: System, f: nat) {
    f in s.db.files && Visible(s.db.files[f]) ==> Shown(s.docs, f, s.db.files[f].generation)
  }

  ghost predicate TextAgrees(s: System) {
    forall f :: AgreesAt(s, f)
  }

  ghost predicate DocsBehind(s: System) {
    && OneDocumentPerFile(s.docs)
    && (forall f :: DocsOf(s.docs, f) != [] ==> f in s.newest && DocsOf(s.docs, f)[0].generation == s.newest[f])
    && (forall f :: f in s.newest ==> f in s.db.files && s.newest[f] <= s.db.files[f].generation)
  }

  ghost predicate ReadHolds(s: System) {
    !s.phase.Idle? ==>
      && OnlyTasksDelete(s.phase.requests)
      && forall f :: f in s.phase.current ==>
           && f in s.db.files && s.phase.current[f] <= s.db.files[f].generation
           && (f in s.newest ==> s.newest[f] <= s.phase.current[f])
           && (Visible(s.db.files[f]) ==> s.db.files[f].generation == s.phase.current[f])
  }

  ghost predicate AppliedHolds(s: System) {
    s.phase.Applied? ==>
      forall f :: Final(s.phase.requests, s.phase.current, f).Some? ==>
        DocsOf(s.docs, f) == DocumentsOf(Final(s.phase.requests, s.phase.current, f).value)
  }

  ghost predicate Base(s: System, limit: nat) {
    Inv(s.db, limit) && DocsBehind(s) && ReadHolds(s) && AppliedHolds(s)
  }

  /** Agreement, or the file's deletion is applied and not yet recorded. */
  ghost predicate CoveredAt(s: System, f: nat) {
    AgreesAt(s, f) || (s.phase.Applied? && DeletesVisible(s, f))
  }

  ghost predicate Coherent(s: System, limit: nat) {
    Base(s, limit) && forall f :: CoveredAt(s, f)
  }

  /** A native commit's receipt is not coming. */
  ghost predicate LosesReceipt(s: System, step: Step)
    requires Enabled(s, step)
  {
    match step
    case ApplyBatch(native) => native.LandedWithError?
    case Record(now) => Recorded(s, now).RolledBack?
    case RecordLost => true
    case Crash => s.phase.Applied?
    case _ => false
  }

  /** A fresh delete of this file, which the catalog still shows, is committed without a receipt. */
  ghost predicate AbandonsAt(s: System, step: Step, f: nat)
    requires Enabled(s, step)
  {
    LosesReceipt(s, step) && DeletesVisible(s, f)
  }

  ghost predicate Abandons(s: System, step: Step)
    requires Enabled(s, step)
  {
    exists f :: AbandonsAt(s, step, f)
  }

  // ------------------------------------------------------------------ each step

  lemma FinalIsFresh(requests: seq<CommitRequest>, current: map<nat, int>, f: nat)
    requires Final(requests, current, f).Some?
    ensures var m := Final(requests, current, f).value;
      f in current && GenerationOf(m) == current[f] && FileOf(m) == f
  {
  }

  lemma CatalogStepKeeps(s: System, action: QueueRuns.Action, limit: nat)
    requires Base(s, limit) && Enabled(s, CatalogStep(action))
    ensures Base(Next(s, CatalogStep(action), limit), limit)
    ensures forall f :: CoveredAt(s, f) ==> CoveredAt(Next(s, CatalogStep(action), limit), f)
  {
    QueueRuns.PerformKeeps(s.db, action, limit);
    var after := QueueRuns.Perform(s.db, action, limit);
    assert Quiet(s.db.files, after.files) && Grows(s.db.files, after.files);
    forall f | f in after.files && Visible(after.files[f])
      ensures f in s.db.files && Visible(s.db.files[f]) && s.db.files[f].generation == after.files[f].generation
    {
    }
  }

  lemma ReadKeeps(s: System, requests: seq<CommitRequest>, limit: nat)
    requires Base(s, limit) && Enabled(s, ReadGenerations(requests))
    ensures Base(Next(s, ReadGenerations(requests), limit), limit)
    ensures forall f :: CoveredAt(s, f) ==> CoveredAt(Next(s, ReadGenerations(requests), limit), f)
  {
  }

  lemma ApplyDocs(s: System, limit: nat, f: nat)
    requires Base(s, limit) && s.phase.HasRead?
    ensures var docs := ApplyNative(s.docs, Batch(s.phase.requests, s.phase.current));
      var final := Final(s.phase.requests, s.phase.current, f);
      DocsOf(docs, f) == if final.Some? then DocumentsOf(final.value) else DocsOf(s.docs, f)
    ensures Upserts(s.phase, f) ==> f in Files(Batch(s.phase.requests, s.phase.current))
  {
    BatchLeaves(s.docs, s.phase.requests, s.phase.current, f);
    CollapsedFiles(s.phase.requests, s.phase.current, |s.phase.requests|, f);
  }

  lemma ApplyKeepsBase(s: System, native: NativeOutcome, limit: nat)
    requires Base(s, limit) && Enabled(s, ApplyBatch(native)) && !native.Missed?
    ensures Base(Next(s, ApplyBatch(native), limit), limit)
  {
    var after := Next(s, ApplyBatch(native), limit);
    BatchKeepsOneDocument(s.docs, s.phase.requests, s.phase.current);
    forall f | DocsOf(after.docs, f) != []
      ensures f in after.newest && DocsOf(after.docs, f)[0].generation == after.newest[f]
    {
      ApplyDocs(s, limit, f);
    }
    forall f | f in after.newest
      ensures f in s.db.files && after.newest[f] <= s.db.files[f].generation
      ensures f in s.phase.current ==> after.newest[f] <= s.phase.current[f]
    {
      if Upserts(s.phase, f) {
        FinalIsFresh(s.phase.requests, s.phase.current, f);
      }
    }
    forall f | Final(s.phase.requests, s.phase.current, f).Some?
      ensures DocsOf(after.docs, f) == DocumentsOf(Final(s.phase.requests, s.phase.current, f).value)
    {
      ApplyDocs(s, limit, f);
    }
  }

  /** After a native commit a file that agreed lacks its document exactly if the batch deletes it. */
  lemma ApplyShows(s: System, limit: nat, f: nat)
    requires Base(s, limit) && CoveredAt(s, f) && s.phase.HasRead? && f in s.db.files && Visible(s.db.files[f])
    ensures var docs := ApplyNative(s.docs, Batch(s.phase.requests, s.phase.current));
      Shown(docs, f, s.db.files[f].generation) <==> !DeletesVisible(s, f)
  {
    ApplyDocs(s, limit, f);
    if Final(s.phase.requests, s.phase.current, f).Some? {
      FinalIsFresh(s.phase.requests, s.phase.current, f);
    }
  }

  lemma ApplyKeeps(s: System, native: NativeOutcome, limit: nat, f: nat)
    requires Base(s, limit) && Enabled(s, ApplyBatch(native))
    ensures Base(Next(s, ApplyBatch(native), limit), limit)
    ensures CoveredAt(s, f) ==>
      (CoveredAt(Next(s, ApplyBatch(native), limit), f) <==> !AbandonsAt(s, ApplyBatch(native), f))
  {
    if !native.Missed? {
      ApplyKeepsBase(s, native, limit);
      if CoveredAt(s, f) && f in s.db.files && Visible(s.db.files[f]) {
        ApplyShows(s, limit, f);
      }
    }
  }

  lemma LosingKeeps(s: System, limit: nat, f: nat)
    requires Base(s, limit)
    ensures Base(s.(phase := Idle), limit)
    ensures CoveredAt(s, f) ==> (CoveredAt(s.(phase := Idle), f) <==> !(s.phase.Applied? && DeletesVisible(s, f)))
  {
    if s.phase.Applied? && DeletesVisible(s, f) {
      assert DocsOf(s.docs, f) == [];
    }
  }

  // -------------------------------------------------------------- the receipt

  /** The last line of a receipt that changes file f. */
  ghost function LastItem(items: seq<Queue.Receipt>, f: nat): Option<Queue.Receipt> {
    if items == [] then None
    else if items[|items| - 1].fileId == f && !items[|items| - 1].stale then Some(items[|items| - 1])
    else LastItem(items[..|items| - 1], f)
  }

  lemma {:induction false} LastItemOfRest(items: seq<Queue.Receipt>, f: nat)
    requires items != []
    ensures LastItem(items, f) ==
      if LastItem(items[1..], f).Some? then LastItem(items[1..], f)
      else if items[0].fileId == f && !items[0].stale then Some(items[0]) else None
    decreases |items|
  {
    var shorter := items[..|items| - 1];
    if shorter != [] {
      LastItemOfRest(shorter, f);
      assert items[1..][..|items| - 2] == shorter[1..];
    }
  }

  lemma CompleteOneFiles(db: Db, item: Queue.Receipt)
    requires Queue.CompleteOne(db, item).Committed?
    ensures Queue.CompleteOne(db, item).db.files ==
      if item.stale then db.files
      else if item.fileId in db.files
      then db.files[item.fileId := db.files[item.fileId].(status := item.status, indexedAt := item.indexedAt)]
        else db.files
    ensures !item.stale ==> item.fileId in db.files && db.files[item.fileId].generation == item.generation
  {
  }

  /** A completed batch leaves each row as its last line says, at that line's own generation. */
  lemma {:induction false} BatchFiles(db: Db, items: seq<Queue.Receipt>, f: nat)
    requires Queue.CompleteBatch(db, items).Committed?
    ensures var after := Queue.CompleteBatch(db, items).db.files;
      && (f in after <==> f in db.files)
      && (f in after ==> match LastItem(items, f)
          case None => after[f] == db.files[f]
          case Some(item) =>
            && after[f] == db.files[f].(status := item.status, indexedAt := item.indexedAt)
            && item.generation == db.files[f].generation)
    decreases |items|
  {
    if items != [] {
      CompleteOneFiles(db, items[0]);
      BatchFiles(Queue.CompleteOne(db, items[0]).db, items[1..], f);
      LastItemOfRest(items, f);
    }
  }

  lemma ItemsOf(receipts: seq<CommitReceipt>, more: seq<CommitReceipt>, now: int, f: nat)
    requires |more| <= 1
    ensures LastItem(Items(receipts + more, now), f) ==
      if more != [] && more[0].fileId == f && !more[0].stale then Some(Item(more[0], now))
      else LastItem(Items(receipts, now), f)
  {
    if more == [] {
      assert receipts + more == receipts;
    } else {
      var longer := Items(receipts + more, now);
      assert longer[..|longer| - 1] == Items(receipts, now);
    }
  }

  /** A receipt that shows a file comes with a final upsert of it; so does a silent one. */
  lemma {:induction false} ReceiptsMatchFinals(
    requests: seq<CommitRequest>, current: map<nat, int>, k: nat, now: int, f: nat)
    requires k <= |requests| && OnlyTasksDelete(requests)
    ensures var item := LastItem(Items(Receipts(requests, current, k), now), f);
      var i := LastFresh(requests, current, f, k);
      && (item.Some? && item.value.status.Indexed? ==> i.Some? && requests[i.value].mutation.UpsertDocument?)
      && (item.Some? && item.value.status.Indexed? ==> f in current && item.value.generation == current[f])
      && (item.Some? ==> i.Some? && item.value.indexedAt.Some? == item.value.status.Indexed?)
      && (item.None? && i.Some? ==> requests[i.value].mutation.UpsertDocument?)
      && (item.Some? && !item.value.status.Indexed? ==> item.value.status.Deleted?)
    decreases k
  {
    if k > 0 {
      ReceiptsMatchFinals(requests, current, k - 1, now, f);
      ItemsOf(Receipts(requests, current, k - 1), ReceiptFor(requests[k - 1], current), now, f);
      assert requests[k - 1] in requests;
    }
  }

  lemma RecordKeepsBase(s: System, now: int, limit: nat)
    requires Base(s, limit) && s.phase.Applied? && Recorded(s, now).Committed?
    ensures Base(s.(db := Recorded(s, now).db, phase := Idle), limit)
  {
    CompleteBatchKeeps(s.db, Items(ReceiptsOf(s.phase), now), limit);
    assert Grows(s.db.files, Recorded(s, now).db.files);
  }

  /** The receipt's last word on the file is that it is indexed. */
  ghost predicate Indexes(s: System, now: int, f: nat)
    requires s.phase.Applied?
  {
    var last := LastItem(Items(ReceiptsOf(s.phase), now), f);
    last.Some? && last.value.status.Indexed?
  }

  /** What a recorded batch does to one catalog row. */
  lemma RecordedRow(s: System, now: int, f: nat)
    requires ReadHolds(s) && s.phase.Applied? && Recorded(s, now).Committed?
    ensures var files := Recorded(s, now).db.files;
      && (f in files <==> f in s.db.files)
      && (f in files ==> files[f].generation == s.db.files[f].generation)
      && (Indexes(s, now, f) ==> Upserts(s.phase, f) && f in files && Visible(files[f]))
      && (Upserts(s.phase, f) && f in files && Visible(files[f]) ==> files[f].generation == s.phase.current[f])
      && (f in files && !Upserts(s.phase, f) ==>
           (Visible(files[f]) <==> Visible(s.db.files[f]) && !DeletesVisible(s, f)))
  {
    BatchFiles(s.db, Items(ReceiptsOf(s.phase), now), f);
    ReceiptsMatchFinals(s.phase.requests, s.phase.current, |s.phase.requests|, now, f);
    if Final(s.phase.requests, s.phase.current, f).Some? {
      FinalIsFresh(s.phase.requests, s.phase.current, f);
    }
  }

  /**
   * A recorded batch leaves in agreement each file that was covered, and each
   * file it upserts whatever went before; a file its receipt shows is visible,
   * with its document.
   */
  lemma RecordKeeps(s: System, now: int, limit: nat, f: nat)
    requires Base(s, limit) && s.phase.Applied? && Recorded(s, now).Committed?
    ensures var after := Next(s, Record(now), limit);
      && Base(after, limit)
      && (AgreesAt(after, f) <==> CoveredAt(s, f) || Upserts(s.phase, f))
      && (Indexes(s, now, f) ==> Upserts(s.phase, f) && f in after.db.files && Visible(after.db.files[f]))
  {
    RecordKeepsBase(s, now, limit);
    RecordedRow(s, now, f);
    if Upserts(s.phase, f) {
      FinalIsFresh(s.phase.requests, s.phase.current, f);
    }
  }

  // ------------------------------------------------------------------- all runs

  /**
   * Any interleaving: a covered file stays covered, whatever becomes of other
   * files, except exactly in the steps that commit a delete of it while the
   * catalog still shows it and then lose the receipt.
   */
  lemma StepCovers(s: System, step: Step, limit: nat, f: nat)
    requires Base(s, limit) && Enabled(s, step)
    ensures Base(Next(s, step, limit), limit)
    ensures CoveredAt(s, f) ==> (CoveredAt(Next(s, step, limit), f) <==> !AbandonsAt(s, step, f))
  {
    match step
    case CatalogStep(action) => CatalogStepKeeps(s, action, limit);
    case ReadGenerations(requests) => ReadKeeps(s, requests, limit);
    case ApplyBatch(native) => ApplyKeeps(s, native, limit, f);
    case Record(now) =>
      if Recorded(s, now).Committed? {
        RecordKeeps(s, now, limit, f);
      } else {
        LosingKeeps(s, limit, f);
      }
    case RecordLost => LosingKeeps(s, limit, f);
    case Crash => LosingKeeps(s, limit, f);
  }

  /** For all files at once. */
  lemma StepKeeps(s: System, step: Step, limit: nat)
    requires Coherent(s, limit) && Enabled(s, step)
    ensures Coherent(Next(s, step, limit), limit) <==> !Abandons(s, step)
  {
    var after := Next(s, step, limit);
    StepCovers(s, step, limit, 0);
    forall f
      ensures CoveredAt(after, f) <==> !AbandonsAt(s, step, f)
    {
      StepCovers(s, step, limit, f);
    }
    CoversAll(s, step, after);
  }

  lemma CoversAll(s: System, step: Step, after: System)
    requires Enabled(s, step) && forall f :: CoveredAt(after, f) <==> !AbandonsAt(s, step, f)
    ensures (forall f :: CoveredAt(after, f)) <==> !Abandons(s, step)
  {
  }

  /** A document applied for a file is never older than any applied for it before. */
  lemma NewestGrows(s: System, step: Step, limit: nat)
    requires Base(s, limit) && Enabled(s, step)
    ensures forall f :: f in s.newest ==>
      f in Next(s, step, limit).newest && s.newest[f] <= Next(s, step, limit).newest[f]
  {
    if step.ApplyBatch? && !step.native.Missed? {
      forall f | f in s.newest
        ensures s.newest[f] <= Next(s, step, limit).newest[f]
      {
        if Upserts(s.phase, f) {
          FinalIsFresh(s.phase.requests, s.phase.current, f);
        }
      }
    }
  }

  /** What cover means to a reader: agreement, outside the window between a commit and its receipt. */
  lemma CoveredAgrees(s: System, limit: nat, f: nat)
    requires Base(s, limit) && CoveredAt(s, f)
    ensures AgreesAt(s, f) <==> !(s.phase.Applied? && DeletesVisible(s, f))
  {
    if s.phase.Applied? && DeletesVisible(s, f) {
      assert DocsOf(s.docs, f) == [];
    }
  }

  lemma DocumentIsNewest(s: System, d: Document)
    requires DocsBehind(s) && d in s.docs
    ensures d.fileId in s.newest && d.generation == s.newest[d.fileId]
  {
    DocsOfMember(s.docs, d);
    assert |DocsOf(s.docs, d.fileId)| <= 1;
  }

  const START := System(Db(map[], map[], map[]), [], Idle, map[])

  ghost predicate Run(states: seq<System>, steps: seq<Step>, limit: nat) {
    && |states| == |steps| + 1 && states[0] == START
    && forall k :: 0 <= k < |steps| ==>
      Enabled(states[k], steps[k]) && states[k + 1] == Next(states[k], steps[k], limit)
  }

  lemma {:induction false} RunBase(states: seq<System>, steps: seq<Step>, limit: nat, k: nat)
    requires Run(states, steps, limit) && k <= |steps|
    ensures Base(states[k], limit)
    decreases k
  {
    if k > 0 {
      RunBase(states, steps, limit, k - 1);
      StepCovers(states[k - 1], steps[k - 1], limit, 0);
    }
  }

  /** In every run, lost receipts or not, a file has one document at most, never ahead of its catalog row. */
  lemma DocumentsBehind(states: seq<System>, steps: seq<Step>, limit: nat, k: nat, f: nat)
    requires Run(states, steps, limit) && k <= |steps|
    ensures |DocsOf(states[k].docs, f)| <= 1
    ensures forall d :: d in states[k].docs && d.fileId == f ==>
      f in states[k].db.files && d.generation <= states[k].db.files[f].generation
  {
    RunBase(states, steps, limit, k);
    forall d | d in states[k].docs && d.fileId == f
      ensures f in states[k].db.files && d.generation <= states[k].db.files[f].generation
    {
      DocumentIsNewest(states[k], d);
    }
  }

  lemma {:induction false} NewestGrowsInRun(
    states: seq<System>, steps: seq<Step>, limit: nat, i: nat, j: nat, f: nat)
    requires Run(states, steps, limit) && i <= j <= |steps| && f in states[i].newest
    ensures f in states[j].newest && states[i].newest[f] <= states[j].newest[f]
    decreases j
  {
    if i < j {
      NewestGrowsInRun(states, steps, limit, i, j - 1, f);
      RunBase(states, steps, limit, j - 1);
      NewestGrows(states[j - 1], steps[j - 1], limit);
    }
  }

  /** In every run the index never goes back: a file's later document is at least as new. */
  lemma IndexNeverGoesBack(
    states: seq<System>, steps: seq<Step>, limit: nat, i: nat, j: nat, d: Document, e: Document)
    requires Run(states, steps, limit) && i <= j <= |steps|
    requires d in states[i].docs && e in states[j].docs && d.fileId == e.fileId
    ensures d.generation <= e.generation
  {
    RunBase(states, steps, limit, i);
    RunBase(states, steps, limit, j);
    DocumentIsNewest(states[i], d);
    DocumentIsNewest(states[j], e);
    NewestGrowsInRun(states, steps, limit, i, j, d.fileId);
  }

  /**
   * In every run, from any moment at which a file is covered it stays so until a
   * delete of that very file is abandoned: it agrees with the catalog outside
   * the window between a commit and its receipt.
   */
  lemma {:induction false} RunCovers(states: seq<System>, steps: seq<Step>, limit: nat, i: nat, k: nat, f: nat)
    requires Run(states, steps, limit) && i <= k <= |steps| && CoveredAt(states[i], f)
    requires forall j :: i <= j < k ==> !AbandonsAt(states[j], steps[j], f)
    ensures CoveredAt(states[k], f)
    ensures AgreesAt(states[k], f) <==> !(states[k].phase.Applied? && DeletesVisible(states[k], f))
    decreases k
  {
    if i < k {
      RunCovers(states, steps, limit, i, k - 1, f);
      RunBase(states, steps, limit, k - 1);
      StepCovers(states[k - 1], steps[k - 1], limit, f);
    }
    RunBase(states, steps, limit, k);
    CoveredAgrees(states[k], limit, f);
  }

  /** Over every run that abandons no such delete, the whole index agrees with the catalog. */
  lemma RunCoheres(states: seq<System>, steps: seq<Step>, limit: nat, k: nat)
    requires Run(states, steps, limit) && k <= |steps|
    requires forall j :: 0 <= j < k ==> !Abandons(states[j], steps[j])
    ensures Coherent(states[k], limit)
    ensures !states[k].phase.Applied? ==> TextAgrees(states[k])
  {
    RunBase(states, steps, limit, k);
    forall f
      ensures CoveredAt(states[k], f) && (!states[k].phase.Applied? ==> AgreesAt(states[k], f))
    {
      assert forall j :: 0 <= j < k ==> !AbandonsAt(states[j], steps[j], f);
      RunCovers(states, steps, limit, 0, k, f);
    }
  }
}
