/**
 * The text projection and the writer that owns it: one batch of mutations is
 * collapsed to the last fresh one per file and applied in one native commit.
 */
module Projection {
  import opened Basics

  /** `content` stands for everything a search can match. */
  datatype Document = Document(fileId: nat, generation: int, content: int)

  datatype Mutation = UpsertDocument(document: Document) | DeleteDocument(file: nat, at: int)

  /** A request without a task is projection-only: it leaves no receipt. */
  datatype CommitRequest = CommitRequest(taskId: Option<nat>, mutation: Mutation)

  function FileOf(m: Mutation): nat {
    if m.UpsertDocument? then m.document.fileId else m.file
  }

  function GenerationOf(m: Mutation): int {
    if m.UpsertDocument? then m.document.generation else m.at
  }

  /** What a mutation leaves of its file. */
  function DocumentsOf(m: Mutation): seq<Document> {
    if m.UpsertDocument? then [m.document] else []
  }

  // ---------------------------------------------------------- the native index

  /** Delete by file id. */
  function Without(docs: seq<Document>, ids: set<nat>): seq<Document> {
    if docs == [] then []
    else (if docs[0].fileId in ids then [] else [docs[0]]) + Without(docs[1..], ids)
  }

  function Additions(mutations: seq<Mutation>): seq<Document> {
    if mutations == [] then []
    else Additions(mutations[..|mutations| - 1]) + DocumentsOf(mutations[|mutations| - 1])
  }

  function Files(mutations: seq<Mutation>): set<nat> {
    set m | m in mutations :: FileOf(m)
  }

  /** Engine.Apply: all deletes, then all additions, in one commit. */
  function ApplyNative(docs: seq<Document>, mutations: seq<Mutation>): seq<Document> {
    Without(docs, Files(mutations)) + Additions(mutations)
  }

  /** The documents a search for file f can find. */
  function DocsOf(docs: seq<Document>, f: nat): seq<Document> {
    if docs == [] then []
    else (if docs[0].fileId == f then [docs[0]] else []) + DocsOf(docs[1..], f)
  }

  ghost predicate OneDocumentPerFile(docs: seq<Document>) {
    forall f :: |DocsOf(docs, f)| <= 1
  }

  lemma {:induction false} DocsOfSplit(a: seq<Document>, b: seq<Document>, f: nat)
    ensures DocsOf(a + b, f) == DocsOf(a, f) + DocsOf(b, f)
    decreases |a|
  {
    if a == [] {
      assert a + b == b;
    } else {
      assert (a + b)[0] == a[0] && (a + b)[1..] == a[1..] + b;
      DocsOfSplit(a[1..], b, f);
    }
  }

  lemma {:induction false} DocsOfWithout(docs: seq<Document>, ids: set<nat>, f: nat)
    ensures DocsOf(Without(docs, ids), f) == if f in ids then [] else DocsOf(docs, f)
    decreases |docs|
  {
    if docs != [] {
      DocsOfWithout(docs[1..], ids, f);
      DocsOfSplit(if docs[0].fileId in ids then [] else [docs[0]], Without(docs[1..], ids), f);
      assert DocsOf([docs[0]], f) == if docs[0].fileId == f then [docs[0]] else [];
    }
  }

  lemma {:induction false} DocsOfMember(docs: seq<Document>, d: Document)
    ensures d in DocsOf(docs, d.fileId) <==> d in docs
    decreases |docs|
  {
    if docs != [] {
      DocsOfMember(docs[1..], d);
    }
  }

  /** Two indexes that answer alike for every file hold the same documents, as often. */
  lemma {:induction false} SameAnswersSameDocuments(a: seq<Document>, b: seq<Document>)
    requires forall f :: DocsOf(a, f) == DocsOf(b, f)
    ensures multiset(a) == multiset(b)
  {
    forall d
      ensures multiset(a)[d] == multiset(b)[d]
    {
      Multiplicity(a, d);
      Multiplicity(b, d);
    }
  }

  lemma {:induction false} Multiplicity(docs: seq<Document>, d: Document)
    ensures multiset(docs)[d] == multiset(DocsOf(docs, d.fileId))[d]
    decreases |docs|
  {
    if docs != [] {
      Multiplicity(docs[1..], d);
      assert docs == [docs[0]] + docs[1..];
    }
  }

  // ------------------------------------------------------------------- batches

  predicate Fresh(r: CommitRequest, current: map<nat, int>) {
    FileOf(r.mutation) in current && current[FileOf(r.mutation)] == GenerationOf(r.mutation)
  }

  /** The last of the first k requests that is fresh and about file f. */
  ghost function LastFresh(requests: seq<CommitRequest>, current: map<nat, int>, f: nat, k: nat): (i: Option<nat>)
    requires k <= |requests|
    ensures i.Some? ==> i.value < k && Fresh(requests[i.value], current) && FileOf(requests[i.value].mutation) == f
  {
    if k == 0 then None
    else if Fresh(requests[k - 1], current) && FileOf(requests[k - 1].mutation) == f then Some(k - 1)
    else LastFresh(requests, current, f, k - 1)
  }

  lemma {:induction false} LastFreshIsLast(requests: seq<CommitRequest>, current: map<nat, int>, f: nat, k: nat, j: nat)
    requires j < k <= |requests| && Fresh(requests[j], current) && FileOf(requests[j].mutation) == f
    ensures LastFresh(requests, current, f, k).Some? && j <= LastFresh(requests, current, f, k).value
    decreases k
  {
    if j < k - 1 {
      LastFreshIsLast(requests, current, f, k - 1, j);
    }
  }

  /** The mutation that decides file f's fate in this batch. */
  ghost function Final(requests: seq<CommitRequest>, current: map<nat, int>, f: nat): Option<Mutation> {
    var i := LastFresh(requests, current, f, |requests|);
    if i.Some? then Some(requests[i.value].mutation) else None
  }

  ghost predicate IsFinal(requests: seq<CommitRequest>, current: map<nat, int>, i: nat)
    requires i < |requests|
  {
    LastFresh(requests, current, FileOf(requests[i].mutation), |requests|) == Some(i)
  }

  /** The mutations a flush hands to the native index, from its first k requests. */
  ghost function Collapsed(requests: seq<CommitRequest>, current: map<nat, int>, k: nat): seq<Mutation>
    requires k <= |requests|
  {
    if k == 0 then []
    else Collapsed(requests, current, k - 1) + if IsFinal(requests, current, k - 1) then [requests[k - 1].mutation]
      else []
  }

  ghost function Batch(requests: seq<CommitRequest>, current: map<nat, int>): seq<Mutation> {
    Collapsed(requests, current, |requests|)
  }

  /** One-by-one processing: every fresh request committed on its own, stale ones ignored. */
  ghost function ApplyEach(
    docs: seq<Document>, requests: seq<CommitRequest>, current: map<nat, int>, k: nat): seq<Document>
    requires k <= |requests|
  {
    if k == 0 then docs
    else
      var before := ApplyEach(docs, requests, current, k - 1);
      if Fresh(requests[k - 1], current) then ApplyNative(before, [requests[k - 1].mutation]) else before
  }

  lemma {:induction false} AdditionsOf(mutations: seq<Mutation>, m: Mutation, f: nat)
    ensures Additions(mutations + [m]) == Additions(mutations) + DocumentsOf(m)
    ensures Files(mutations + [m]) == Files(mutations) + {FileOf(m)}
    ensures DocsOf(DocumentsOf(m), f) == if FileOf(m) == f then DocumentsOf(m) else []
  {
    var longer := mutations + [m];
    assert longer[..|longer| - 1] == mutations;
    assert forall x :: x in longer <==> x in mutations || x == m;
  }

  lemma {:induction false} ApplyOne(docs: seq<Document>, m: Mutation, f: nat)
    ensures DocsOf(ApplyNative(docs, [m]), f) == if FileOf(m) == f then DocumentsOf(m) else DocsOf(docs, f)
  {
    AdditionsOf([], m, f);
    assert [] + [m] == [m];
    DocsOfSplit(Without(docs, Files([m])), Additions([m]), f);
    DocsOfWithout(docs, Files([m]), f);
  }

  lemma EachStep(docs: seq<Document>, requests: seq<CommitRequest>, current: map<nat, int>, k: nat, f: nat)
    requires k < |requests|
    ensures DocsOf(ApplyEach(docs, requests, current, k + 1), f)
      == if Fresh(requests[k], current) && FileOf(requests[k].mutation) == f
         then DocumentsOf(requests[k].mutation) else DocsOf(ApplyEach(docs, requests, current, k), f)
  {
    ApplyOne(ApplyEach(docs, requests, current, k), requests[k].mutation, f);
  }

  /** One by one, a file ends as its last fresh mutation leaves it. */
  lemma {:induction false} EachLeaves(
    docs: seq<Document>, requests: seq<CommitRequest>, current: map<nat, int>, k: nat, f: nat)
    requires k <= |requests|
    ensures var i := LastFresh(requests, current, f, k);
      DocsOf(ApplyEach(docs, requests, current, k), f)
      == if i.Some? then DocumentsOf(requests[i.value].mutation) else DocsOf(docs, f)
    decreases k
  {
    if k > 0 {
      EachLeaves(docs, requests, current, k - 1, f);
      EachStep(docs, requests, current, k - 1, f);
    }
  }

  /** Request k is the one that decides file f's fate. */
  ghost predicate Decides(requests: seq<CommitRequest>, current: map<nat, int>, k: nat, f: nat)
    requires k < |requests|
  {
    IsFinal(requests, current, k) && FileOf(requests[k].mutation) == f
  }

  lemma FinalIs(requests: seq<CommitRequest>, current: map<nat, int>, k: nat, f: nat)
    requires k < |requests|
    ensures Decides(requests, current, k, f) <==> LastFresh(requests, current, f, |requests|) == Some(k)
  {
  }

  ghost function Added(requests: seq<CommitRequest>, current: map<nat, int>, k: nat, f: nat): seq<Document>
    requires k <= |requests|
  {
    DocsOf(Additions(Collapsed(requests, current, k)), f)
  }

  lemma CollapsedStep(requests: seq<CommitRequest>, current: map<nat, int>, k: nat, f: nat)
    requires k < |requests|
    ensures Added(requests, current, k + 1, f)
      == if Decides(requests, current, k, f)
         then Added(requests, current, k, f) + DocumentsOf(requests[k].mutation) else Added(requests, current, k, f)
  {
    var before := Collapsed(requests, current, k);
    var m := requests[k].mutation;
    if IsFinal(requests, current, k) {
      AdditionsOf(before, m, f);
      DocsOfSplit(Additions(before), DocumentsOf(m), f);
      assert DocsOf(Additions(before), f) + [] == DocsOf(Additions(before), f);
    } else {
      assert before + [] == before;
    }
  }

  lemma CollapsedFilesStep(requests: seq<CommitRequest>, current: map<nat, int>, k: nat)
    requires k < |requests|
    ensures Files(Collapsed(requests, current, k + 1))
      == Files(Collapsed(requests, current, k)) + if IsFinal(requests, current, k) then {FileOf(requests[k].mutation)}
        else {}
  {
    AdditionsOf(Collapsed(requests, current, k), requests[k].mutation, 0);
    assert Collapsed(requests, current, k) + [] == Collapsed(requests, current, k);
  }

  lemma {:induction false} CollapsedFiles(requests: seq<CommitRequest>, current: map<nat, int>, k: nat, f: nat)
    requires k <= |requests|
    ensures var i := LastFresh(requests, current, f, |requests|);
      f in Files(Collapsed(requests, current, k)) <==> i.Some? && i.value < k
    decreases k
  {
    if k > 0 {
      CollapsedFiles(requests, current, k - 1, f);
      CollapsedFilesStep(requests, current, k - 1);
    } else {
      assert Files([]) == {};
    }
  }

  /** Requests that do not decide file f add nothing to it. */
  lemma {:induction false} OthersAdd(
    requests: seq<CommitRequest>, current: map<nat, int>, j: nat, k: nat, f: nat)
    requires j <= k <= |requests| && forall m :: j <= m < k ==> !Decides(requests, current, m, f)
    ensures Added(requests, current, k, f) == Added(requests, current, j, f)
    decreases k
  {
    if j < k {
      OthersAdd(requests, current, j, k - 1, f);
      CollapsedStep(requests, current, k - 1, f);
    }
  }

  /** The deciding request adds its documents, and it alone. */
  lemma CollapsedAdds(requests: seq<CommitRequest>, current: map<nat, int>, f: nat, i: Option<nat>)
    requires i == LastFresh(requests, current, f, |requests|)
    ensures Added(requests, current, |requests|, f)
      == if i.Some? then DocumentsOf(requests[i.value].mutation) else []
  {
    forall m: nat | m < |requests|
      ensures Decides(requests, current, m, f) <==> i == Some(m)
    {
      FinalIs(requests, current, m, f);
    }
    if i.Some? {
      OthersAdd(requests, current, 0, i.value, f);
      CollapsedStep(requests, current, i.value, f);
      assert [] + DocumentsOf(requests[i.value].mutation) == DocumentsOf(requests[i.value].mutation);
      OthersAdd(requests, current, i.value + 1, |requests|, f);
    } else {
      OthersAdd(requests, current, 0, |requests|, f);
    }
  }

  /** The collapsed batch leaves every file as its last fresh mutation does. */
  lemma BatchLeaves(docs: seq<Document>, requests: seq<CommitRequest>, current: map<nat, int>, f: nat)
    ensures var final := Final(requests, current, f);
      DocsOf(ApplyNative(docs, Batch(requests, current)), f) == if final.Some? then DocumentsOf(final.value)
        else DocsOf(docs, f)
  {
    var batch := Batch(requests, current);
    CollapsedFiles(requests, current, |requests|, f);
    CollapsedAdds(requests, current, f, LastFresh(requests, current, f, |requests|));
    DocsOfSplit(Without(docs, Files(batch)), Additions(batch), f);
    DocsOfWithout(docs, Files(batch), f);
  }

  /** One collapsed commit is worth the whole batch processed one by one. */
  lemma FlushRefinesOneByOne(docs: seq<Document>, requests: seq<CommitRequest>, current: map<nat, int>)
    ensures multiset(ApplyNative(docs, Batch(requests, current))) == multiset(ApplyEach(docs, requests, current,
      |requests|))
  {
    var batched := ApplyNative(docs, Batch(requests, current));
    var each := ApplyEach(docs, requests, current, |requests|);
    forall f
      ensures DocsOf(batched, f) == DocsOf(each, f)
    {
      BatchLeaves(docs, requests, current, f);
      EachLeaves(docs, requests, current, |requests|, f);
    }
    SameAnswersSameDocuments(batched, each);
  }

  lemma BatchKeepsOneDocument(docs: seq<Document>, requests: seq<CommitRequest>, current: map<nat, int>)
    requires OneDocumentPerFile(docs)
    ensures OneDocumentPerFile(ApplyNative(docs, Batch(requests, current)))
  {
    forall f
      ensures |DocsOf(ApplyNative(docs, Batch(requests, current)), f)| <= 1
    {
      BatchLeaves(docs, requests, current, f);
    }
  }

  /** Applying the same batch again changes nothing a search can see. */
  lemma ReplayIsHarmless(docs: seq<Document>, requests: seq<CommitRequest>, current: map<nat, int>)
    ensures var once := ApplyNative(docs, Batch(requests, current));
      multiset(ApplyNative(once, Batch(requests, current))) == multiset(once)
  {
    var once := ApplyNative(docs, Batch(requests, current));
    forall f
      ensures DocsOf(ApplyNative(once, Batch(requests, current)), f) == DocsOf(once, f)
    {
      BatchLeaves(docs, requests, current, f);
      BatchLeaves(once, requests, current, f);
    }
    SameAnswersSameDocuments(ApplyNative(once, Batch(requests, current)), once);
  }

  // ---------------------------------------------------------------- the writer

  datatype CommitReceipt = CommitReceipt(taskId: nat, fileId: nat, generation: int, upsert: bool, stale: bool)

  function ReceiptFor(r: CommitRequest, current: map<nat, int>): seq<CommitReceipt> {
    if r.taskId.None? then []
    else [CommitReceipt(r.taskId.value, FileOf(r.mutation), GenerationOf(r.mutation), r.mutation.UpsertDocument?,
      !Fresh(r, current))]
  }

  function Receipts(requests: seq<CommitRequest>, current: map<nat, int>, k: nat): seq<CommitReceipt>
    requires k <= |requests|
  {
    if k == 0 then [] else Receipts(requests, current, k - 1) + ReceiptFor(requests[k - 1], current)
  }

  /** How the native commit ended; it can have committed and still report an error. */
  datatype NativeOutcome = Landed | LandedWithError | Missed

  datatype Answer = Delivered(stale: bool) | Refused

  /** What each submitter is told. */
  ghost function AnswerTo(
    requests: seq<CommitRequest>, current: map<nat, int>, native: NativeOutcome, recorded: bool, i: nat): Answer
    requires i < |requests|
  {
    if Batch(requests, current) != [] && !native.Landed? then Refused
    else if Receipts(requests, current, |requests|) != [] && !recorded && requests[i].taskId.Some? then Refused
    else Delivered(!Fresh(requests[i], current))
  }

  /** The response channels of one batch; sending appends. */
  type Channels = seq<seq<Answer>>

  function Send(channels: Channels, i: nat, answer: Answer): Channels
    requires i < |channels|
  {
    channels[i := channels[i] + [answer]]
  }

  class Writer {
    var docs: seq<Document>

    constructor ()
      ensures docs == []
    {
      docs := [];
    }

    method Apply(mutations: seq<Mutation>)
      modifies this
      ensures docs == ApplyNative(old(docs), mutations)
    {
      var ids: set<nat> := {};
      var additions: seq<Document> := [];
      assert Files([]) == {} && mutations[..0] == [];
      for k := 0 to |mutations|
        invariant ids == Files(mutations[..k]) && additions == Additions(mutations[..k])
        invariant docs == old(docs)
      {
        assert mutations[..k + 1] == mutations[..k] + [mutations[k]];
        AdditionsOf(mutations[..k], mutations[k], 0);
        ids := ids + {FileOf(mutations[k])};
        if mutations[k].UpsertDocument? {
          additions := additions + [mutations[k].document];
        }
      }
      assert mutations[..|mutations|] == mutations;
      assert ids == Files(mutations) && additions == Additions(mutations);
      docs := Without(docs, ids) + additions;
    }

    static method FinishAll(requests: seq<CommitRequest>) returns (channels: Channels)
      ensures |channels| == |requests| && forall i :: 0 <= i < |requests| ==> channels[i] == [Refused]
    {
      channels := seq(|requests|, _ => []);
      for k := 0 to |requests|
        invariant |channels| == |requests|
        invariant forall i :: 0 <= i < |requests| ==> channels[i] == if i < k then [Refused] else []
      {
        channels := Send(channels, k, Refused);
      }
    }

    /** The first loop: staleness, receipts, and the last fresh request per file. */
    static method Inspect(requests: seq<CommitRequest>, current: map<nat, int>)
      returns (stale: seq<bool>, receipts: seq<CommitReceipt>, lastFresh: map<nat, nat>)
      ensures stale == seq(|requests|, i requires 0 <= i < |requests| => !Fresh(requests[i], current))
      ensures receipts == Receipts(requests, current, |requests|)
      ensures forall f :: LastFresh(requests, current, f, |requests|) == if f in lastFresh then Some(lastFresh[f])
        else None
    {
      stale, receipts, lastFresh := [], [], map[];
      for k := 0 to |requests|
        invariant stale == seq(k, i requires 0 <= i < k => !Fresh(requests[i], current))
        invariant receipts == Receipts(requests, current, k)
        invariant forall f :: LastFresh(requests, current, f, k) == if f in lastFresh then Some(lastFresh[f]) else None
      {
        var r := requests[k];
        var isFresh := FileOf(r.mutation) in current && current[FileOf(r.mutation)] == GenerationOf(r.mutation);
        stale := stale + [!isFresh];
        if r.taskId.Some? {
          receipts := receipts + [CommitReceipt(r.taskId.value, FileOf(r.mutation), GenerationOf(r.mutation),
            r.mutation.UpsertDocument?, !isFresh)];
        }
        if isFresh {
          lastFresh := lastFresh[FileOf(r.mutation) := k];
        }
      }
    }

    /** The second loop: the mutations to apply, in request order. */
    static method Collapse(requests: seq<CommitRequest>, current: map<nat, int>, lastFresh: map<nat, nat>)
      returns (mutations: seq<Mutation>)
      requires forall f :: LastFresh(requests, current, f, |requests|) == if f in lastFresh then Some(lastFresh[f])
        else None
      ensures mutations == Batch(requests, current)
    {
      mutations := [];
      for k := 0 to |requests|
        invariant mutations == Collapsed(requests, current, k)
      {
        var f := FileOf(requests[k].mutation);
        if f in lastFresh && lastFresh[f] == k {
          mutations := mutations + [requests[k].mutation];
        }
      }
    }

    /**
     * flush. `read` is what the generation query returned (None: it failed),
     * `native` how a native commit ends and `recorded` whether the receipt
     * transaction succeeds; both are asked only when there is something to do.
     */
    method Flush(requests: seq<CommitRequest>, read: Option<map<nat, int>>, native: NativeOutcome, recorded: bool)
      returns (channels: Channels, receipts: seq<CommitReceipt>)
      modifies this
      ensures |channels| == |requests|
      ensures forall i :: 0 <= i < |requests| ==>
        channels[i] == [if read.None? then Refused else AnswerTo(requests, read.value, native, recorded, i)]
      ensures read.None? ==> docs == old(docs) && receipts == []
      ensures read.Some? ==>
        && receipts == Receipts(requests, read.value, |requests|)
        && multiset(docs) == multiset(if native.Missed? then old(docs)
          else ApplyEach(old(docs), requests, read.value, |requests|))
      ensures OneDocumentPerFile(old(docs)) ==> OneDocumentPerFile(docs)
    {
      receipts := [];
      if read.None? {
        channels := FinishAll(requests);
        return;
      }
      var current := read.value;
      FlushRefinesOneByOne(docs, requests, current);
      if OneDocumentPerFile(docs) {
        BatchKeepsOneDocument(docs, requests, current);
      }
      var stale, lastFresh;
      stale, receipts, lastFresh := Inspect(requests, current);
      var mutations := Collapse(requests, current, lastFresh);
      if mutations == [] {
        NothingToApply(docs);
      } else {
        if !native.Missed? {
          Apply(mutations);
        }
        if !native.Landed? {
          channels := FinishAll(requests);
          return;
        }
      }
      channels := Deliver(requests, stale, receipts != [] && !recorded);
    }

    static method Deliver(requests: seq<CommitRequest>, stale: seq<bool>, unrecorded: bool) returns (channels: Channels)
      requires |stale| == |requests|
      ensures |channels| == |requests|
      ensures forall i :: 0 <= i < |requests| ==>
        channels[i] == [if unrecorded && requests[i].taskId.Some? then Refused else Delivered(stale[i])]
    {
      channels := seq(|requests|, _ => []);
      for k := 0 to |requests|
        invariant |channels| == |requests|
        invariant forall i :: 0 <= i < |requests| ==>
          channels[i] == if i >= k then []
            else [if unrecorded && requests[i].taskId.Some? then Refused else Delivered(stale[i])]
      {
        channels := Send(channels, k, if unrecorded && requests[k].taskId.Some? then Refused else Delivered(stale[k]));
      }
    }
  }

  lemma {:induction false} WithoutNothing(docs: seq<Document>)
    ensures Without(docs, {}) == docs
    decreases |docs|
  {
    if docs != [] {
      WithoutNothing(docs[1..]);
    }
  }

  lemma NothingToApply(docs: seq<Document>)
    ensures ApplyNative(docs, []) == docs
  {
    WithoutNothing(docs);
    assert Files([]) == {};
  }
}
