/**
 * Hybrid search: ranking each route, fusing the ranks, and widening the
 * candidate window until the answer is full, complete or flagged.
 */
module Search {
  import opened Basics
  import Catalog

  const MAX_TOP_K := 1000
  const OVERFETCH := 4

  /** A backend hit: its file and what the answer would show of it. */
  datatype Candidate = Candidate(file: nat, snippet: string, timestamp: Option<int>)

  datatype Mode = Hybrid | Keyword | Semantic

  datatype Plan = Plan(mode: Mode, topK: nat, prefix: string, kinds: set<Catalog.FileKind>, from: Option<int>,
    to: Option<int>)

  datatype FileRow = FileRow(path: string, kind: Catalog.FileKind, status: Catalog.FileStatus, mtime: int,
    model: Option<string>)

  predicate UsesKeyword(mode: Mode) {
    !mode.Semantic?
  }

  predicate UsesSemantic(mode: Mode) {
    !mode.Keyword?
  }

  // ----------------------------------------------------------------- eligibility

  predicate IsSeparator(c: char) {
    c == '/' || c == '\\'
  }

  predicate PathMatches(path: string, prefix: string) {
    || prefix == "" || path == prefix
    || (prefix <= path && (IsSeparator(prefix[|prefix| - 1]) || (|path| > |prefix| && IsSeparator(path[|prefix|]))))
  }

  predicate MatchesFilters(row: FileRow, plan: Plan) {
    && PathMatches(row.path, plan.prefix)
    && (plan.kinds != {} ==> row.kind in plan.kinds)
    && (plan.from.Some? ==> row.mtime >= plan.from.value)
    && (plan.to.Some? ==> row.mtime <= plan.to.value)
  }

  /** Failed files stay findable by name; only indexed ones by meaning. */
  function KeywordEligible(catalog: map<nat, FileRow>, plan: Plan): set<nat> {
    set f | f in catalog && (catalog[f].status.Indexed? || catalog[f].status.Failed?)
      && MatchesFilters(catalog[f], plan)
  }

  function SemanticEligible(catalog: map<nat, FileRow>, plan: Plan, model: string): set<nat> {
    set f | f in catalog && catalog[f].status.Indexed? && catalog[f].model == Some(model)
      && MatchesFilters(catalog[f], plan)
  }

  // ---------------------------------------------------------------------- ranking

  function FilesOf(hits: seq<Candidate>): seq<nat> {
    seq(|hits|, i requires 0 <= i < |hits| => hits[i].file)
  }

  /** The first hit of each eligible file, in order; a hit's rank is its place, from one. */
  function Ranked(hits: seq<Candidate>, eligible: set<nat>): seq<Candidate> {
    if hits == [] then []
    else
      var last := hits[|hits| - 1];
      var before := hits[..|hits| - 1];
      Ranked(before, eligible) + if last.file in eligible && last.file !in FilesOf(before) then [last] else []
  }

  /** Ranking keeps exactly the eligible files found, each once and at its best hit. */
  lemma {:induction false} RankedIsBest(hits: seq<Candidate>, eligible: set<nat>)
    ensures NoDuplicates(FilesOf(Ranked(hits, eligible)))
    ensures forall f :: f in FilesOf(Ranked(hits, eligible)) <==> f in FilesOf(hits) && f in eligible
    ensures forall c :: c in Ranked(hits, eligible) ==>
      exists i :: 0 <= i < |hits| && hits[i] == c && c.file !in FilesOf(hits[..i])
    decreases |hits|
  {
    if hits != [] {
      var before := hits[..|hits| - 1];
      var last := hits[|hits| - 1];
      RankedIsBest(before, eligible);
      assert FilesOf(hits) == FilesOf(before) + [last.file];
      RankedAppends(before, last, eligible);
      forall c | c in Ranked(hits, eligible)
        ensures exists i :: 0 <= i < |hits| && hits[i] == c && c.file !in FilesOf(hits[..i])
      {
        if c in Ranked(before, eligible) {
          var i :| 0 <= i < |before| && before[i] == c && c.file !in FilesOf(before[..i]);
          assert hits[..i] == before[..i];
        } else {
          assert hits[..|hits| - 1] == before;
        }
      }
    }
  }

  lemma RankedAppends(before: seq<Candidate>, last: Candidate, eligible: set<nat>)
    ensures FilesOf(Ranked(before + [last], eligible)) ==
      FilesOf(Ranked(before, eligible)) + if last.file in eligible && last.file !in FilesOf(before) then [last.file]
        else []
  {
    assert (before + [last])[..|before|] == before;
  }

  /** rankKeywordHits and rankSemanticHits, given what their catalog checks accept. */
  method Rank(hits: seq<Candidate>, eligible: set<nat>) returns (ranked: seq<Candidate>)
    ensures ranked == Ranked(hits, eligible)
  {
    ranked := [];
    var seen: set<nat> := {};
    for k := 0 to |hits|
      invariant ranked == Ranked(hits[..k], eligible)
      invariant forall f :: f in seen <==> f in FilesOf(hits[..k])
    {
      assert hits[..k + 1][..k] == hits[..k];
      assert FilesOf(hits[..k + 1]) == FilesOf(hits[..k]) + [hits[k].file];
      if hits[k].file !in seen {
        seen := seen + {hits[k].file};
        if hits[k].file in eligible {
          ranked := ranked + [hits[k]];
        }
      }
    }
    assert hits[..|hits|] == hits;
  }

  // ----------------------------------------------------------------------- fusion

  datatype Hit = Hit(file: nat, score: real, bestRank: nat, content: bool, semantic: bool, snippet: string,
    timestamp: Option<int>)

  /** Reciprocal-rank contribution of rank 1 + i. */
  function Weight(i: nat): real {
    1.0 / (61.0 + i as real)
  }

  function Place(route: seq<Candidate>, f: nat): (i: Option<nat>)
    ensures i.Some? ==> i.value < |route| && route[i.value].file == f
  {
    if route == [] then None
    else if route[|route| - 1].file == f then Some(|route| - 1)
    else Place(route[..|route| - 1], f)
  }

  function InRoutes(keyword: seq<Candidate>, semantic: seq<Candidate>): set<nat> {
    (set c | c in keyword :: c.file) + (set c | c in semantic :: c.file)
  }

  /** What fusion makes of one file, from its places in the two ranked routes. */
  function Fused(keyword: seq<Candidate>, semantic: seq<Candidate>, f: nat): Hit {
    var k, s := Place(keyword, f), Place(semantic, f);
    Hit(f,
      (if k.Some? then Weight(k.value) else 0.0) + (if s.Some? then Weight(s.value) else 0.0),
      if k.Some? && s.Some? then Min(k.value + 1, s.value + 1) else if k.Some? then k.value + 1
      else if s.Some? then s.value + 1 else 0,
      k.Some?, s.Some?,
      if k.Some? then keyword[k.value].snippet else "",
      if s.Some? then semantic[s.value].timestamp else None)
  }

  /** Score descending, then best rank, then file id. */
  predicate Better(a: Hit, b: Hit) {
    || a.score > b.score
    || (a.score == b.score && a.bestRank < b.bestRank)
    || (a.score == b.score && a.bestRank == b.bestRank && a.file < b.file)
  }

  /** The best topK of every file either route found, each once, in order. */
  ghost predicate IsFusion(hits: seq<Hit>, keyword: seq<Candidate>, semantic: seq<Candidate>, topK: nat) {
    var files := InRoutes(keyword, semantic);
    && |hits| == Min(topK, |files|)
    && (forall h :: h in hits ==> h.file in files && h == Fused(keyword, semantic, h.file))
    && (forall i, j :: 0 <= i < j < |hits| ==> Better(hits[i], hits[j]))
    && (forall i, f :: 0 <= i < |hits| && f in files && Fused(keyword, semantic, f) !in hits ==>
      Better(hits[i], Fused(keyword, semantic, f)))
  }

  lemma FusionHasNoDuplicates(hits: seq<Hit>, keyword: seq<Candidate>, semantic: seq<Candidate>, topK: nat)
    requires IsFusion(hits, keyword, semantic, topK)
    ensures forall i, j :: 0 <= i < j < |hits| ==> hits[i].file != hits[j].file
  {
    forall i, j | 0 <= i < j < |hits|
      ensures hits[i].file != hits[j].file
    {
      assert hits[i] in hits && hits[j] in hits && Better(hits[i], hits[j]);
    }
  }

  /** The answer is determined: any two fusions of the same routes are equal. */
  lemma FusionIsUnique(a: seq<Hit>, b: seq<Hit>, keyword: seq<Candidate>, semantic: seq<Candidate>, topK: nat)
    requires IsFusion(a, keyword, semantic, topK) && IsFusion(b, keyword, semantic, topK)
    ensures a == b
  {
    forall k | 0 <= k < |a| && a[..k] == b[..k]
      ensures a[k] == b[k]
    {
      NextIsSame(a, b, keyword, semantic, topK, k);
    }
    ElementByElement(a, b, |a|);
  }

  /** Sequences of one length that agree wherever they have agreed so far. */
  lemma {:induction false} ElementByElement(a: seq<Hit>, b: seq<Hit>, n: nat)
    requires |a| == |b| && n <= |a| && forall k :: 0 <= k < |a| && a[..k] == b[..k] ==> a[k] == b[k]
    ensures a[..n] == b[..n] && (n == |a| ==> a == b)
    decreases n
  {
    if n > 0 {
      ElementByElement(a, b, n - 1);
      assert a[..n] == a[..n - 1] + [a[n - 1]] && b[..n] == b[..n - 1] + [b[n - 1]];
    }
    assert n == |a| ==> a[..n] == a && b[..n] == b;
  }

  lemma NextIsSame(a: seq<Hit>, b: seq<Hit>, keyword: seq<Candidate>, semantic: seq<Candidate>, topK: nat, n: nat)
    requires IsFusion(a, keyword, semantic, topK) && IsFusion(b, keyword, semantic, topK)
    requires n < |a| && n < |b| && a[..n] == b[..n]
    ensures a[n] == b[n]
  {
    NextIsForced(a, b, keyword, semantic, topK, n);
    NextIsForced(b, a, keyword, semantic, topK, n);
  }

  lemma NextIsForced(a: seq<Hit>, b: seq<Hit>, keyword: seq<Candidate>, semantic: seq<Candidate>, topK: nat, n: nat)
    requires IsFusion(a, keyword, semantic, topK) && IsFusion(b, keyword, semantic, topK)
    requires n < |a| && n < |b| && a[..n] == b[..n]
    ensures a[n] == b[n] || Better(a[n], b[n])
  {
    var h := b[n];
    assert h in b && h == Fused(keyword, semantic, h.file);
    if h in a && a[n] != h {
      var i :| 0 <= i < |a| && a[i] == h;
      assert i < n ==> a[..n][i] == b[..n][i] && Better(b[i], b[n]);
      assert i > n;
    }
  }

  /** The fused items of some ranked hits. */
  ghost function FusedFiles(keyword: seq<Candidate>, semantic: seq<Candidate>): map<nat, Hit> {
    map f | f in InRoutes(keyword, semantic) :: Fused(keyword, semantic, f)
  }

  lemma DistinctPrefix(route: seq<Candidate>, k: nat)
    requires NoDuplicates(FilesOf(route)) && k < |route|
    ensures route[..k + 1] == route[..k] + [route[k]]
    ensures forall i :: 0 <= i < k ==> route[..k][i].file != route[k].file
  {
    assert forall i :: 0 <= i < |route| ==> FilesOf(route)[i] == route[i].file;
  }

  lemma RoutesNext(keyword: seq<Candidate>, route: seq<Candidate>, c: Candidate)
    ensures InRoutes(keyword, route + [c]) == InRoutes(keyword, route) + {c.file}
    ensures InRoutes(route + [c], []) == InRoutes(route, []) + {c.file}
  {
    assert forall x :: x in route + [c] <==> x in route || x == c;
  }

  lemma FusedKeywordNext(route: seq<Candidate>, c: Candidate, f: nat)
    requires forall i :: 0 <= i < |route| ==> route[i].file != c.file
    ensures f != c.file ==> Fused(route + [c], [], f) == Fused(route, [], f)
    ensures Fused(route + [c], [], c.file) == Hit(c.file, Weight(|route|), |route| + 1, true, false, c.snippet, None)
  {
    PlaceNext(route, c);
  }

  lemma AddKeyword(route: seq<Candidate>, c: Candidate)
    requires forall i :: 0 <= i < |route| ==> route[i].file != c.file
    ensures FusedFiles(route + [c], []) == FusedFiles(route,
      [])[c.file := Hit(c.file, Weight(|route|), |route| + 1, true, false, c.snippet, None)]
  {
    RoutesNext([], route, c);
    forall f | f in InRoutes(route, [])
      ensures f != c.file ==> Fused(route + [c], [], f) == Fused(route, [], f)
    {
      FusedKeywordNext(route, c, f);
    }
    FusedKeywordNext(route, c, c.file);
  }

  /** What a semantic hit adds to its file's item. */
  function WithSemantic(existing: Option<Hit>, c: Candidate, s: nat): Hit {
    match existing
    case None => Hit(c.file, Weight(s), s + 1, false, true, "", c.timestamp)
    case Some(h) => h.(score := h.score + Weight(s), bestRank := Min(h.bestRank, s + 1), semantic := true,
      timestamp := c.timestamp)
  }

  lemma FusedNext(keyword: seq<Candidate>, route: seq<Candidate>, c: Candidate, f: nat)
    requires forall i :: 0 <= i < |route| ==> route[i].file != c.file
    ensures f != c.file ==> Fused(keyword, route + [c], f) == Fused(keyword, route, f)
    ensures (c.file in InRoutes(keyword, route)) == Place(keyword, c.file).Some?
    ensures Fused(keyword, route + [c], c.file) ==
      WithSemantic(if c.file in InRoutes(keyword, route) then Some(Fused(keyword, route, c.file)) else None, c, |route|)
  {
    PlaceNext(route, c);
    PlaceOf(keyword, c.file);
    PlaceOf(route, c.file);
  }

  lemma AddSemantic(keyword: seq<Candidate>, route: seq<Candidate>, c: Candidate)
    requires forall i :: 0 <= i < |route| ==> route[i].file != c.file
    ensures var fused := FusedFiles(keyword, route);
      FusedFiles(keyword, route + [c]) ==
        fused[c.file := WithSemantic(if c.file in fused then Some(fused[c.file]) else None, c, |route|)]
  {
    RoutesNext(keyword, route, c);
    forall f | f in InRoutes(keyword, route)
      ensures f != c.file ==> Fused(keyword, route + [c], f) == Fused(keyword, route, f)
    {
      FusedNext(keyword, route, c, f);
    }
    FusedNext(keyword, route, c, c.file);
  }

  /** The accumulator over the ranked hits of both routes. */
  method Accumulate(keyword: seq<Candidate>, semantic: seq<Candidate>) returns (fused: map<nat, Hit>)
    requires NoDuplicates(FilesOf(keyword)) && NoDuplicates(FilesOf(semantic))
    ensures fused == FusedFiles(keyword, semantic)
  {
    fused := map[];
    for k := 0 to |keyword|
      invariant fused == FusedFiles(keyword[..k], [])
    {
      DistinctPrefix(keyword, k);
      AddKeyword(keyword[..k], keyword[k]);
      fused := fused[keyword[k].file := Hit(keyword[k].file, Weight(k), k + 1, true, false, keyword[k].snippet, None)];
    }
    assert keyword[..|keyword|] == keyword && semantic[..0] == [];
    for s := 0 to |semantic|
      invariant fused == FusedFiles(keyword, semantic[..s])
    {
      DistinctPrefix(semantic, s);
      AddSemantic(keyword, semantic[..s], semantic[s]);
      var c := semantic[s];
      var existing := if c.file in fused then Some(fused[c.file]) else None;
      fused := fused[c.file := WithSemantic(existing, c, s)];
    }
    assert semantic[..|semantic|] == semantic;
  }

  lemma {:induction false} PlaceOf(route: seq<Candidate>, f: nat)
    ensures Place(route, f).Some? <==> exists c :: c in route && c.file == f
    decreases |route|
  {
    if route != [] {
      PlaceOf(route[..|route| - 1], f);
      assert route == route[..|route| - 1] + [route[|route| - 1]];
    }
  }

  lemma PlaceNext(route: seq<Candidate>, c: Candidate)
    requires forall i :: 0 <= i < |route| ==> route[i].file != c.file
    ensures Place(route, c.file).None?
    ensures forall f :: Place(route + [c], f) == if f == c.file then Some(|route|) else Place(route, f)
  {
    PlaceOf(route, c.file);
    assert (route + [c])[..|route|] == route;
  }

  lemma BetterIsTotal(a: Hit, b: Hit)
    requires a.file != b.file
    ensures Better(a, b) || Better(b, a)
  {
  }

  /** The best topK items of a finished accumulator, in order. */
  ghost predicate IsTop(hits: seq<Hit>, fused: map<nat, Hit>, topK: nat) {
    && |hits| == Min(topK, |fused|)
    && (forall h :: h in hits ==> h.file in fused && h == fused[h.file])
    && (forall i, j :: 0 <= i < j < |hits| ==> Better(hits[i], hits[j]))
    && (forall i, f :: 0 <= i < |hits| && f in fused && fused[f] !in hits ==> Better(hits[i], fused[f]))
  }

  /** sort.Slice and the cut at topK. */
  method TakeTop(fused: map<nat, Hit>, topK: nat) returns (hits: seq<Hit>)
    requires forall f :: f in fused ==> fused[f].file == f
    ensures IsTop(hits, fused, topK)
  {
    hits := [];
    var rest := fused.Keys;
    while rest != {} && |hits| < topK
      invariant rest <= fused.Keys && |hits| <= topK && |hits| + |rest| == |fused|
      invariant forall h :: h in hits ==> h.file in fused && h.file !in rest && h == fused[h.file]
      invariant forall f :: f in fused && f !in rest ==> fused[f] in hits
      invariant forall i, j :: 0 <= i < j < |hits| ==> Better(hits[i], hits[j])
      invariant forall i, f :: 0 <= i < |hits| && f in rest ==> Better(hits[i], fused[f])
      decreases rest
    {
      var best := PickBest(fused, rest);
      hits := hits + [fused[best]];
      rest := rest - {best};
    }
  }

  lemma TopIsFusion(hits: seq<Hit>, keyword: seq<Candidate>, semantic: seq<Candidate>, topK: nat)
    requires IsTop(hits, FusedFiles(keyword, semantic), topK)
    ensures IsFusion(hits, keyword, semantic, topK)
  {
    var fused := FusedFiles(keyword, semantic);
    assert fused.Keys == InRoutes(keyword, semantic);
    assert |fused| == |fused.Keys|;
    forall f | f in InRoutes(keyword, semantic)
      ensures f in fused && fused[f] == Fused(keyword, semantic, f)
    {
    }
  }

  /** fuseRankedHits. */
  method Fuse(keyword: seq<Candidate>, semantic: seq<Candidate>, topK: nat) returns (hits: seq<Hit>)
    requires NoDuplicates(FilesOf(keyword)) && NoDuplicates(FilesOf(semantic))
    ensures IsFusion(hits, keyword, semantic, topK)
  {
    var fused := Accumulate(keyword, semantic);
    hits := TakeTop(fused, topK);
    TopIsFusion(hits, keyword, semantic, topK);
  }

  method PickBest(fused: map<nat, Hit>, rest: set<nat>) returns (best: nat)
    requires rest != {} && rest <= fused.Keys && forall f :: f in fused ==> fused[f].file == f
    ensures best in rest && forall f :: f in rest && f != best ==> Better(fused[best], fused[f])
  {
    best :| best in rest;
    var unseen := rest - {best};
    while unseen != {}
      invariant unseen <= rest && best in rest && best !in unseen
      invariant forall f :: f in rest && f !in unseen && f != best ==> Better(fused[best], fused[f])
    {
      var f :| f in unseen;
      BetterIsTotal(fused[best], fused[f]);
      if Better(fused[f], fused[best]) {
        best := f;
      }
      unseen := unseen - {f};
    }
  }

  // -------------------------------------------------------------------- expansion

  function CandidateLimit(topK: nat): nat {
    if topK >= MAX_TOP_K / OVERFETCH then MAX_TOP_K else topK * OVERFETCH
  }

  function ExpandedLimit(current: nat): nat {
    if current >= MAX_TOP_K / 2 then MAX_TOP_K else current * 2
  }

  datatype Response = Response(hits: seq<Hit>, degraded: bool, incomplete: bool)

  /** A bounded backend: the first n of its one ranked list. */
  function FirstOf(all: seq<Candidate>, n: nat): seq<Candidate> {
    all[..Min(n, |all|)]
  }

  /** The fusion of everything either route has, under one reading of the catalog. */
  ghost predicate IsComplete(hits: seq<Hit>, keywordAll: seq<Candidate>, semanticAll: seq<Candidate>,
                             catalog: map<nat, FileRow>, plan: Plan, model: string)
  {
    IsFusion(hits,
      Ranked(if UsesKeyword(plan.mode) then keywordAll else [], KeywordEligible(catalog, plan)),
      Ranked(if UsesSemantic(plan.mode) then semanticAll else [], SemanticEligible(catalog, plan, model)),
      plan.topK)
  }

  method FuseRound(
    keyword: seq<Candidate>, semantic: seq<Candidate>, catalog: map<nat, FileRow>, plan: Plan, model: string)
    returns (hits: seq<Hit>)
    ensures IsFusion(hits, Ranked(keyword, KeywordEligible(catalog, plan)),
      Ranked(semantic, SemanticEligible(catalog, plan, model)), plan.topK)
  {
    var rankedKeyword := Rank(keyword, KeywordEligible(catalog, plan));
    var rankedSemantic := Rank(semantic, SemanticEligible(catalog, plan, model));
    RankedIsBest(keyword, KeywordEligible(catalog, plan));
    RankedIsBest(semantic, SemanticEligible(catalog, plan, model));
    hits := Fuse(rankedKeyword, rankedSemantic, plan.topK);
  }

  /** One route's part of a round: a route that comes up short has shown all it has. */
  method Ask(all: seq<Candidate>, limit: nat, active: bool, previous: seq<Candidate>)
    returns (hits: seq<Candidate>, more: bool)
    requires limit >= 1
    ensures hits == if active then FirstOf(all, limit) else previous
    ensures more ==> active && |all| >= limit
    ensures active && !more ==> hits == all
  {
    hits := if active then FirstOf(all, limit) else previous;
    more := active && |hits| == limit;
  }

  /** A route no longer asked either is not used or has shown all it has. */
  ghost predicate Settled(uses: bool, active: bool, hits: seq<Candidate>, all: seq<Candidate>) {
    (!uses ==> !active && hits == []) && (uses && !active ==> hits == all)
  }

  /**
   * Search: widen the window until the answer is full, both routes are
   * exhausted, or the bound is reached. `degrades` says in which round the
   * semantic route becomes unavailable, `catalogs` what each round reads.
   */
  method Search(plan: Plan, keywordAll: seq<Candidate>, semanticAll: seq<Candidate>, model: string,
                degrades: nat -> bool, catalogs: nat -> map<nat, FileRow>)
    returns (response: Response, round: nat)
    requires 1 <= plan.topK <= MAX_TOP_K
    ensures |response.hits| <= plan.topK
    ensures forall i, j :: 0 <= i < j < |response.hits| ==>
      response.hits[i].file != response.hits[j].file && Better(response.hits[i], response.hits[j])
    ensures |response.hits| < plan.topK && !response.incomplete && !response.degraded ==>
      IsComplete(response.hits, keywordAll, semanticAll, catalogs(round), plan, model)
    ensures response.incomplete ==>
      |response.hits| < plan.topK && (|keywordAll| >= MAX_TOP_K || |semanticAll| >= MAX_TOP_K)
    ensures response.degraded ==> UsesSemantic(plan.mode) && exists r :: 0 <= r <= round && degrades(r)
  {
    var limit := CandidateLimit(plan.topK);
    var keywordActive, semanticActive := UsesKeyword(plan.mode), UsesSemantic(plan.mode);
    var keyword: seq<Candidate>, semantic: seq<Candidate> := [], [];
    var degraded := false;
    round := 0;
    while true
      invariant 1 <= limit <= MAX_TOP_K
      invariant Settled(UsesKeyword(plan.mode), keywordActive, keyword, keywordAll)
      invariant !degraded ==> Settled(UsesSemantic(plan.mode), semanticActive, semantic, semanticAll)
      invariant degraded ==> UsesSemantic(plan.mode) && !semanticActive && exists r :: 0 <= r <= round && degrades(r)
      invariant semanticActive ==> UsesSemantic(plan.mode)
      decreases MAX_TOP_K - limit
    {
      if semanticActive && degrades(round) {
        degraded, semanticActive, semantic := true, false, [];
      }
      keyword, keywordActive := Ask(keywordAll, limit, keywordActive, keyword);
      semantic, semanticActive := Ask(semanticAll, limit, semanticActive, semantic);
      var hits := FuseRound(keyword, semantic, catalogs(round), plan, model);
      FusionHasNoDuplicates(hits, Ranked(keyword, KeywordEligible(catalogs(round), plan)),
        Ranked(semantic, SemanticEligible(catalogs(round), plan, model)), plan.topK);
      response := Response(hits, degraded, limit == MAX_TOP_K && |hits| < plan.topK
        && (keywordActive || semanticActive));
      if |hits| >= plan.topK || limit == MAX_TOP_K || (!keywordActive && !semanticActive) {
        return;
      }
      limit, round := ExpandedLimit(limit), round + 1;
    }
  }
}
