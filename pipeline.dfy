/**
 * `verify_claim_pipeline` (core/verify.py): search, fetch, keyword gate,
 * NLI aggregation per source, the two quality gates, the blended score and
 * the ranked list of sources.
 *
 * The run is a method whose stages are loops, each proved equal to the
 * stage function of module Aggregate it computes; `Pipeline` composes those
 * functions and `VerifyClaimPipeline` is proved to return exactly its value.
 * The search response, the page fetcher, the NLI model, the configuration
 * file and the clock are parameters.
 */
module Pipeline {
  import opened Wrappers
  import opened Config
  import opened Seqs
  import opened Utils
  import opened Search
  import opened Settings
  import opened Heuristic
  import opened Aggregate

  /** The remark every report carries. */
  const Notes: string :=
    "Only top sources shown (ranked by domain authority + evidence strength). Full set used internally for scoring."

  /** The dictionary the pipeline returns, with `score` unrounded. */
  datatype Report = Report(
    claim: string, score: real, uniqueDomains: nat, coverageBucket: Coverage,
    sources: seq<Source>, notes: string)

  // ---------------------------------------------------------------------
  // The stages as functions

  /** What `fetch_page` returns for each picked result, in result order. */
  function Fetched(picked: seq<Hit>, fetch: string -> Page): (r: seq<Page>)
    ensures |r| == |picked|
    ensures forall i :: 0 <= i < |picked| ==> r[i] == fetch(picked[i].link)
  {
    seq(|picked|, i requires 0 <= i < |picked| => fetch(picked[i].link))
  }

  /** The capped queue of chunks for the NLI model. */
  function Queue(evidence: seq<Evidence>, claim: string, s: Settings): seq<Candidate> {
    Cap(Candidates(evidence, KeywordsFromClaim(claim), s.minKeywordMatch), s.maxChunksTotal)
  }

  /** `per_source` once the unevaluated evidence has been added. */
  function PerSource(evidence: seq<Evidence>, claim: string, nli: (string, string) -> Scores, s: Settings): Table {
    AddUnevaluated(Aggregate.Aggregate(Queue(evidence, claim, s), claim, nli), evidence)
  }

  /**
   * `per_source` is a well-formed dictionary whose keys are exactly the
   * evidence URLs: every page kept has an entry, and the NLI queue names no
   * URL outside the evidence.
   */
  lemma PerSourceCovers(evidence: seq<Evidence>, claim: string, nli: (string, string) -> Scores, s: Settings)
    ensures ValidTable(PerSource(evidence, claim, nli, s))
    ensures forall u :: u in PerSource(evidence, claim, nli, s).recs <==>
      exists i :: 0 <= i < |evidence| && evidence[i].url == u
    ensures forall i :: 0 <= i < |evidence| ==> evidence[i].url in PerSource(evidence, claim, nli, s).recs
  {
    var t := Aggregate.Aggregate(Queue(evidence, claim, s), claim, nli);
    AggregateKeys(Queue(evidence, claim, s), claim, nli);
    QueuedFromEvidence(evidence, claim, nli, s);
    AddFromKeys(t, evidence);
  }

  /** Every URL the NLI stage saw belongs to some evidence record. */
  lemma QueuedFromEvidence(evidence: seq<Evidence>, claim: string, nli: (string, string) -> Scores, s: Settings)
    ensures forall u :: u in Aggregate.Aggregate(Queue(evidence, claim, s), claim, nli).recs ==>
      exists i :: 0 <= i < |evidence| && evidence[i].url == u
  {
    var kws := KeywordsFromClaim(claim);
    var all := Candidates(evidence, kws, s.minKeywordMatch);
    var items := Queue(evidence, claim, s);
    AggregateKeys(items, claim, nli);
    forall u | u in Aggregate.Aggregate(items, claim, nli).recs
      ensures exists i :: 0 <= i < |evidence| && evidence[i].url == u
    {
      var k :| 0 <= k < |items| && items[k].url == u;
      assert items[k] == all[k];
      CandidatesFromEvidence(evidence, kws, s.minKeywordMatch, all[k]);
    }
  }

  /** The two facts of `PerSourceCovers` the gate loop and the enrichment need. */
  lemma PerSourceEntries(evidence: seq<Evidence>, claim: string, nli: (string, string) -> Scores, s: Settings)
    ensures forall u :: u in PerSource(evidence, claim, nli, s).recs ==> u in PerSource(evidence, claim, nli, s).keys
    ensures forall i :: 0 <= i < |evidence| ==> evidence[i].url in PerSource(evidence, claim, nli, s).recs
  {
    PerSourceCovers(evidence, claim, nli, s);
  }

  /** Steps 8 to 12 on the table `perSource` once the heuristic score `h` is known. */
  function Conclude(
    claim: string, evidence: seq<Evidence>, perSource: Table, s: Settings,
    h: (real, real, Coverage)): Result<Report, ConfigError>
    requires forall i :: 0 <= i < |evidence| ==> evidence[i].url in perSource.recs
  {
    var gated := GateAll(perSource, s);
    var nliScore := NliScore(IncludedValues(gated.keys, gated.recs));
    match Enrich(evidence, gated.recs, s)
    case Failure(e) => Failure(e)
    case Success(enriched) =>
      Success(Report(claim, Blend(h.0, nliScore, s.blendAlpha), DomainCount(evidence), h.2,
                     TopSources(enriched), Notes))
  }

  /** The run once the settings are known and the search results are picked. */
  function Run(
    claim: string, s: Settings, picked: seq<Hit>, fetch: string -> Page,
    nli: (string, string) -> Scores, now: int, chunksPerPage: int): Result<Report, ConfigError>
  {
    var evidence := Gather(Fetched(picked, fetch), claim, chunksPerPage);
    match HeuristicScore(evidence, now, s)
    case Failure(e) => Failure(e)
    case Success(h) =>
      PerSourceEntries(evidence, claim, nli, s);
      Conclude(claim, evidence, PerSource(evidence, claim, nli, s), s, h)
  }

  /**
   * `verify_claim_pipeline(claim, search_k, fetch_k, chunks_per_page)`:
   * `file` is the configuration file as parsed, `organic` the search
   * response's organic results, `domainOf` the URL-to-domain parser,
   * `fetch` the page fetcher, `nli` the NLI model and `now` the time of the
   * run.
   */
  function Pipeline(
    claim: string, file: Option<Json>, organic: seq<Organic>, domainOf: string -> string,
    fetch: string -> Page, nli: (string, string) -> Scores, now: int,
    searchK: int, fetchK: int, chunksPerPage: int): Result<Report, ConfigError>
  {
    match FromConfig(GetCfg(file))
    case Failure(e) => Failure(e)
    case Success(s) =>
      Run(claim, s, PyPrefix(SearchResults(organic, searchK, domainOf), fetchK), fetch, nli, now, chunksPerPage)
  }

  // ---------------------------------------------------------------------
  // The stages as the source computes them

  /** The evidence record for a page that loaded: its metadata and its top chunks. */
  method PageEvidence(page: Page, claim: string, chunksPerPage: int) returns (ev: Evidence)
    ensures ev == EvidenceOf(page, claim, chunksPerPage)
  {
    var split := SplitToChunks(page.sentences, 500);
    var chunks := SelectTop(split, KeywordsFromClaim(claim), chunksPerPage);
    ev := Evidence(page.url, page.domain, page.title, page.publishedAt, page.language, chunks);
  }

  /** The keyword gate over one page's chunks. */
  method GateChunks(ev: Evidence, kws: seq<string>, kwMin: int) returns (queued: seq<Candidate>)
    ensures queued == ChunkCandidates(ev, ev.chunks, kws, kwMin)
  {
    queued := [];
    for j := 0 to |ev.chunks|
      invariant queued == ChunkCandidates(ev, ev.chunks[..j], kws, kwMin)
    {
      assert ev.chunks[..j + 1][..j] == ev.chunks[..j];
      var score := ScoreChunkByKeywords(ev.chunks[j], kws);
      if score >= kwMin {
        queued := queued + [Candidate(ev.domain, ev.url, ev.chunks[j])];
      }
    }
    assert ev.chunks[..|ev.chunks|] == ev.chunks;
  }

  /** Step 3: fetch each picked result, keep the pages that loaded, queue their matching chunks. */
  method CollectEvidence(
    picked: seq<Hit>, fetch: string -> Page, claim: string, kws: seq<string>, kwMin: int, chunksPerPage: int)
    returns (evidence: seq<Evidence>, allChunks: seq<Candidate>)
    ensures evidence == Gather(Fetched(picked, fetch), claim, chunksPerPage)
    ensures allChunks == Candidates(evidence, kws, kwMin)
  {
    ghost var pages := Fetched(picked, fetch);
    evidence, allChunks := [], [];
    for i := 0 to |picked|
      invariant evidence == Gather(pages[..i], claim, chunksPerPage)
      invariant allChunks == Candidates(evidence, kws, kwMin)
    {
      var page := fetch(picked[i].link);
      assert pages[..i + 1] == pages[..i] + [page];
      GatherSnoc(pages[..i], page, claim, chunksPerPage);
      if page.ok {
        var ev := PageEvidence(page, claim, chunksPerPage);
        var queued := GateChunks(ev, kws, kwMin);
        CandidatesSnoc(evidence, ev, kws, kwMin);
        evidence := evidence + [ev];
        allChunks := allChunks + queued;
      }
    }
    assert pages[..|picked|] == pages;
  }

  /** One NLI result folded into its source's entry. */
  method AbsorbScores(rec0: Record, chunk: string, sc: Scores) returns (rec: Record)
    ensures rec == Absorb(rec0, chunk, sc)
  {
    rec := rec0;
    if sc.entail > rec.maxEntail {
      rec := rec.(maxEntail := sc.entail, bestEnt := chunk);
    }
    if sc.contra > rec.maxContra {
      rec := rec.(maxContra := sc.contra, bestContra := chunk);
    }
    rec := rec.(neutral := Max(rec.neutral, sc.neutral));
  }

  /** Step 5: run the NLI model on each queued chunk and keep each source's maxima. */
  method RunNli(items: seq<Candidate>, claim: string, nli: (string, string) -> Scores)
    returns (keys: seq<string>, recs: map<string, Record>)
    ensures Table(keys, recs) == Aggregate.Aggregate(items, claim, nli)
  {
    keys, recs := [], map[];
    for i := 0 to |items|
      invariant Table(keys, recs) == Aggregate.Aggregate(items[..i], claim, nli)
    {
      assert items[..i + 1][..i] == items[..i];
      ghost var t := Table(keys, recs);
      var item := items[i];
      var sc := nli(item.chunk, claim);
      var u := item.url;
      if u !in recs {
        recs := recs[u := Fresh(item)];
        keys := keys + [u];
      }
      var rec := AbsorbScores(recs[u], item.chunk, sc);
      recs := recs[u := rec];
      assert Table(keys, recs) == Put(t, u, rec);
    }
    assert items[..|items|] == items;
  }

  /** Step 6: an entry for each evidence URL the NLI model never saw. */
  method AddUnevaluatedSources(keys0: seq<string>, recs0: map<string, Record>, evidence: seq<Evidence>)
    returns (keys: seq<string>, recs: map<string, Record>)
    ensures Table(keys, recs) == AddUnevaluated(Table(keys0, recs0), evidence)
  {
    var evaluated := recs0.Keys;
    keys, recs := keys0, recs0;
    for i := 0 to |evidence|
      invariant Table(keys, recs) == AddFrom(Table(keys0, recs0), evaluated, evidence[..i])
    {
      assert evidence[..i + 1][..i] == evidence[..i];
      var ev := evidence[i];
      if ev.url !in evaluated {
        if ev.url !in recs {
          keys := keys + [ev.url];
        }
        recs := recs[ev.url := Unevaluated(ev)];
      }
    }
    assert evidence[..|evidence|] == evidence;
  }

  /** The gates applied to one entry: excluded first, included with its component if it passes both. */
  method GateEntry(rec0: Record, s: Settings) returns (rec: Record)
    ensures rec == Gate(rec0, s)
  {
    rec := rec0.(included := false);
    if !rec.evaluated {
      return;
    }
    if Max(rec.maxEntail, rec.maxContra) < s.minSourceConf {
      return;
    }
    var importance := rec.maxEntail + rec.maxContra;
    if importance < s.minImportance {
      return;
    }
    var sval := s.supportScale * rec.maxEntail - s.contradictPenalty * rec.maxContra;
    if s.neutralAs != 0.0 {
      sval := sval + s.neutralAs * rec.neutral;
    }
    rec := rec.(included := true, component := sval);
  }

  /** The gate loop over the keys `ks`: the entries after it and the values it collected. */
  ghost function GateLoop(recs0: map<string, Record>, ks: seq<string>, s: Settings): (r: (map<string, Record>, seq<real>))
    ensures r.0.Keys == recs0.Keys
  {
    if ks == [] then (recs0, [])
    else
      var before := GateLoop(recs0, ks[..|ks| - 1], s);
      var k := ks[|ks| - 1];
      if k in before.0 then
        var g := Gate(before.0[k], s);
        (before.0[k := g], if g.included then before.1 + [g.component] else before.1)
      else before
  }

  /** One more key: `GateLoop` unfolded once. */
  lemma GateLoopStep(recs0: map<string, Record>, ks: seq<string>, s: Settings)
    requires ks != []
    ensures var before := GateLoop(recs0, ks[..|ks| - 1], s);
      var k := ks[|ks| - 1];
      GateLoop(recs0, ks, s) ==
        if k in before.0 then
          (before.0[k := Gate(before.0[k], s)],
           if Gate(before.0[k], s).included then before.1 + [Gate(before.0[k], s).component] else before.1)
        else before
  {
  }

  /** Gating twice is gating once. */
  lemma GateIdempotent(rec: Record, s: Settings)
    ensures Gate(Gate(rec, s), s) == Gate(rec, s)
  {
  }

  /** A gated key's entry is `Gate` of its original, whether the key was listed once or more; the others are untouched. */
  lemma {:induction false} GateLoopEntries(recs0: map<string, Record>, ks: seq<string>, s: Settings)
    ensures forall u :: u in recs0 ==> GateLoop(recs0, ks, s).0[u] == if u in ks then Gate(recs0[u], s) else recs0[u]
  {
    if ks != [] {
      var init := ks[..|ks| - 1];
      GateLoopEntries(recs0, init, s);
      assert ks == init + [ks[|ks| - 1]];
      var k := ks[|ks| - 1];
      if k in recs0 {
        GateIdempotent(recs0[k], s);
      }
    }
  }

  /** The values collected are the components of the gated entries that are included, in key order. */
  lemma {:induction false} GateLoopValues(recs0: map<string, Record>, ks: seq<string>, s: Settings, gated: map<string, Record>)
    requires gated.Keys == recs0.Keys
    requires forall u :: u in recs0 ==> gated[u] == Gate(recs0[u], s)
    ensures GateLoop(recs0, ks, s).1 == IncludedValues(ks, gated)
  {
    if ks != [] {
      var init := ks[..|ks| - 1];
      var k := ks[|ks| - 1];
      GateLoopValues(recs0, init, s, gated);
      GateLoopEntries(recs0, init, s);
      if k in recs0 {
        GateIdempotent(recs0[k], s);
      }
    }
  }

  /** Step 8: gate every entry in key order, collecting the components of those included. */
  method ApplyGates(keys: seq<string>, recs0: map<string, Record>, s: Settings)
    returns (recs: map<string, Record>, vals: seq<real>)
    requires forall u :: u in recs0 ==> u in keys
    ensures Table(keys, recs) == GateAll(Table(keys, recs0), s)
    ensures vals == IncludedValues(keys, recs)
  {
    recs, vals := recs0, [];
    for i := 0 to |keys|
      invariant (recs, vals) == GateLoop(recs0, keys[..i], s)
    {
      var k := keys[i];
      assert keys[..i + 1][..i] == keys[..i];
      GateLoopStep(recs0, keys[..i + 1], s);
      if k in recs {
        var rec := GateEntry(recs[k], s);
        if rec.included {
          vals := vals + [rec.component];
        }
        recs := recs[k := rec];
      }
    }
    assert keys[..|keys|] == keys;
    ghost var gated := GateAll(Table(keys, recs0), s).recs;
    GateLoopEntries(recs0, keys, s);
    GateLoopValues(recs0, keys, s, gated);
    assert recs == gated;
  }

  /** Step 10: the included evidence with its source's figures and domain bonus. */
  method EnrichSources(evidence: seq<Evidence>, recs: map<string, Record>, s: Settings)
    returns (r: Result<seq<Source>, ConfigError>)
    requires forall i :: 0 <= i < |evidence| ==> evidence[i].url in recs
    ensures r == Enrich(evidence, recs, s)
  {
    var enriched := [];
    for i := 0 to |evidence|
      invariant Enrich(evidence[..i], recs, s) == Success(enriched)
    {
      assert evidence[..i + 1][..i] == evidence[..i];
      var ev := evidence[i];
      var rec := recs[ev.url];
      if rec.included {
        var entEx := if rec.maxEntail >= s.excerptThreshold then rec.bestEnt else "";
        var conEx := if rec.maxContra >= s.excerptThreshold then rec.bestContra else "";
        var bonus := DomainBonus(rec.domain, s);
        if bonus.Failure? {
          assert Enrich(evidence[..i + 1], recs, s).Failure?;
          EnrichFailsFrom(evidence, i + 1, recs, s);
          assert Enrich(evidence, recs, s).error == BadValue;
          return Failure(BadValue);
        }
        enriched := enriched + [Source(ev, rec.evaluated, rec.included, rec.maxEntail, rec.maxContra,
                                       entEx, conEx, rec.component, bonus.value)];
      }
    }
    assert evidence[..|evidence|] == evidence;
    r := Success(enriched);
  }

  /** Steps 8 to 12 over the table the NLI stages built. */
  method ConcludeRun(
    claim: string, evidence: seq<Evidence>, s: Settings, h: (real, real, Coverage),
    keys: seq<string>, recs: map<string, Record>)
    returns (r: Result<Report, ConfigError>)
    requires forall u :: u in recs ==> u in keys
    requires forall i :: 0 <= i < |evidence| ==> evidence[i].url in recs
    ensures r == Conclude(claim, evidence, Table(keys, recs), s, h)
  {
    var gatedRecs, vals := ApplyGates(keys, recs, s);
    // 9. the NLI score and the final blend
    var nliScore := if vals != [] then Clamp(Sum(vals) / (|vals| as real)) else 0.0;
    var finalScore := Clamp((1.0 - s.blendAlpha) * h.0 + s.blendAlpha * nliScore);
    ghost var gated := GateAll(Table(keys, recs), s);
    assert gated == Table(keys, gatedRecs);
    assert nliScore == NliScore(vals);
    assert finalScore == Blend(h.0, nliScore, s.blendAlpha);
    // 10.-12. the sources shown
    var enriched := EnrichSources(evidence, gatedRecs, s);
    if enriched.Failure? {
      return Failure(enriched.error);
    }
    var ranked := SortBy(enriched.value, SourceKey(), Ahead());
    var top5 := Take(ranked, 5);
    r := Success(Report(claim, finalScore, |EvidenceDomains(evidence)|, h.2, top5, Notes));
    assert enriched == Enrich(evidence, gated.recs, s);
    assert top5 == TopSources(enriched.value);
  }

  /** Steps 4 to 6: cap the queue, run the NLI model over it and add the unevaluated sources. */
  method PerSourceTable(
    evidence: seq<Evidence>, allChunks: seq<Candidate>, claim: string,
    nli: (string, string) -> Scores, s: Settings)
    returns (keys: seq<string>, recs: map<string, Record>)
    requires allChunks == Candidates(evidence, KeywordsFromClaim(claim), s.minKeywordMatch)
    ensures Table(keys, recs) == PerSource(evidence, claim, nli, s)
    ensures forall u :: u in recs ==> u in keys
    ensures forall i :: 0 <= i < |evidence| ==> evidence[i].url in recs
  {
    // 4. safety cap
    var queue := allChunks;
    if |queue| > s.maxChunksTotal {
      queue := PyPrefix(queue, s.maxChunksTotal);
    }
    assert queue == Queue(evidence, claim, s);
    // 5.-6. the per-source table
    keys, recs := RunNli(queue, claim, nli);
    keys, recs := AddUnevaluatedSources(keys, recs, evidence);
    PerSourceEntries(evidence, claim, nli, s);
  }

  /** Steps 2 to 12 once the settings are known and the search results picked. */
  method RunStages(
    claim: string, s: Settings, picked: seq<Hit>, fetch: string -> Page,
    nli: (string, string) -> Scores, now: int, chunksPerPage: int)
    returns (r: Result<Report, ConfigError>)
    ensures r == Run(claim, s, picked, fetch, nli, now, chunksPerPage)
  {
    // 2.-3. keywords, fetch and keyword gate
    var kws := KeywordsFromClaim(claim);
    var evidence, allChunks := CollectEvidence(picked, fetch, claim, kws, s.minKeywordMatch, chunksPerPage);
    var keys, recs := PerSourceTable(evidence, allChunks, claim, nli, s);
    // 7. heuristic score
    var h := ComputeHeuristic(evidence, now, s);
    if h.Failure? {
      return Failure(h.error);
    }
    r := ConcludeRun(claim, evidence, s, h.value, keys, recs);
  }

  /** The whole run, stage by stage as the source performs it. */
  method VerifyClaimPipeline(
    claim: string, file: Option<Json>, organic: seq<Organic>, domainOf: string -> string,
    fetch: string -> Page, nli: (string, string) -> Scores, now: int,
    searchK: int, fetchK: int, chunksPerPage: int)
    returns (r: Result<Report, ConfigError>)
    ensures r == Pipeline(claim, file, organic, domainOf, fetch, nli, now, searchK, fetchK, chunksPerPage)
  {
    var cfg := GetCfg(file);
    var settings := FromConfig(cfg);
    if settings.Failure? {
      return Failure(settings.error);
    }
    // 1. search
    var results := SearchSerper(organic, searchK, domainOf);
    var picked := PyPrefix(results, fetchK);
    r := RunStages(claim, settings.value, picked, fetch, nli, now, chunksPerPage);
  }

  // ---------------------------------------------------------------------
  // What a report promises

  /**
   * A report carries the claim, the fixed note, the number of distinct
   * evidence domains and the coverage bucket of the heuristic score; its
   * score lies in [0, 100]; at most five sources are shown, each an
   * evidence record whose source entry passed both quality gates, with that
   * entry's maxima and component, and with a best chunk only where its
   * maximum reaches the excerpt threshold.
   */
  lemma ConcludeSources(
    claim: string, evidence: seq<Evidence>, perSource: Table, s: Settings, h: (real, real, Coverage))
    requires forall i :: 0 <= i < |evidence| ==> evidence[i].url in perSource.recs
    requires Conclude(claim, evidence, perSource, s, h).Success?
    ensures var rep := Conclude(claim, evidence, perSource, s, h).value;
      rep.claim == claim && rep.notes == Notes &&
      rep.uniqueDomains == |EvidenceDomains(evidence)| && rep.coverageBucket == h.2 &&
      0.0 <= rep.score <= 100.0 && |rep.sources| <= 5
    ensures var rep := Conclude(claim, evidence, perSource, s, h).value;
      forall x :: x in rep.sources ==>
        x.ev in evidence && x.included && x.evaluated &&
        var rec := perSource.recs[x.ev.url];
        PassesGates(rec, s) && x.component == Component(rec, s) &&
        x.maxEntail == rec.maxEntail && x.maxContra == rec.maxContra &&
        x.entExcerpt == Excerpt(rec.bestEnt, rec.maxEntail, s.excerptThreshold) &&
        x.contraExcerpt == Excerpt(rec.bestContra, rec.maxContra, s.excerptThreshold)
  {
    var gated := GateAll(perSource, s);
    var enriched := Enrich(evidence, gated.recs, s).value;
    TopSourcesSpec(enriched);
    EnrichContents(evidence, gated.recs, s);
    forall x | x in TopSources(enriched)
      ensures x.ev in evidence && x.included && x.evaluated
      ensures var rec := perSource.recs[x.ev.url];
        PassesGates(rec, s) && x.component == Component(rec, s) &&
        x.maxEntail == rec.maxEntail && x.maxContra == rec.maxContra &&
        x.entExcerpt == Excerpt(rec.bestEnt, rec.maxEntail, s.excerptThreshold) &&
        x.contraExcerpt == Excerpt(rec.bestContra, rec.maxContra, s.excerptThreshold)
    {
      var j :| 0 <= j < |enriched| && enriched[j] == x;
      var ev := IncludedEvidence(evidence, gated.recs)[j];
      assert x == MakeSource(ev, gated.recs[ev.url], DomainBonus(gated.recs[ev.url].domain, s).value, s);
      assert gated.recs[ev.url] == Gate(perSource.recs[ev.url], s);
    }
  }

  /**
   * The sources are shown by non-increasing domain bonus, then component;
   * no enriched source left out ranks ahead of one shown.
   */
  lemma ConcludeOrder(
    claim: string, evidence: seq<Evidence>, perSource: Table, s: Settings, h: (real, real, Coverage))
    requires forall i :: 0 <= i < |evidence| ==> evidence[i].url in perSource.recs
    requires Conclude(claim, evidence, perSource, s, h).Success?
    ensures var shown := Conclude(claim, evidence, perSource, s, h).value.sources;
      forall i, j :: 0 <= i < j < |shown| ==>
        shown[i].domainBonus > shown[j].domainBonus ||
        (shown[i].domainBonus == shown[j].domainBonus && shown[i].component >= shown[j].component)
    ensures var shown := Conclude(claim, evidence, perSource, s, h).value.sources;
      var all := Enrich(evidence, GateAll(perSource, s).recs, s).value;
      forall x, i :: x in all && x !in shown && 0 <= i < |shown| ==>
        !(x.domainBonus > shown[i].domainBonus ||
          (x.domainBonus == shown[i].domainBonus && x.component > shown[i].component))
  {
    var all := Enrich(evidence, GateAll(perSource, s).recs, s).value;
    var shown := TopSources(all);
    assert Conclude(claim, evidence, perSource, s, h).value.sources == shown;
    TopSourcesSpec(all);
    forall x, i | x in all && x !in shown && 0 <= i < |shown|
      ensures !(x.domainBonus > shown[i].domainBonus ||
                (x.domainBonus == shown[i].domainBonus && x.component > shown[i].component))
    {
      assert !Ahead()(SourceKey()(x), SourceKey()(shown[i]));
    }
  }

  /** The run past the heuristic score fails exactly when the domain bonus of some included source does not convert. */
  lemma ConcludeSucceeds(
    claim: string, evidence: seq<Evidence>, perSource: Table, s: Settings, h: (real, real, Coverage))
    requires forall i :: 0 <= i < |evidence| ==> evidence[i].url in perSource.recs
    ensures Conclude(claim, evidence, perSource, s, h).Success? <==>
      forall ev :: ev in IncludedEvidence(evidence, GateAll(perSource, s).recs) ==>
        DomainBonus(perSource.recs[ev.url].domain, s).Success?
  {
    EnrichGatedSucceeds(evidence, perSource, s);
  }

  /**
   * With a blend weight in [0, 1] the score is the weighted mean of the
   * heuristic score and the NLI score of the included sources, so it lies
   * between the two.
   */
  lemma ConcludeScore(
    claim: string, evidence: seq<Evidence>, perSource: Table, s: Settings, h: (real, real, Coverage))
    requires forall i :: 0 <= i < |evidence| ==> evidence[i].url in perSource.recs
    requires Conclude(claim, evidence, perSource, s, h).Success?
    requires 0.0 <= s.blendAlpha <= 1.0 && 0.0 <= h.0 <= 100.0
    ensures var gated := GateAll(perSource, s);
      var nliScore := NliScore(IncludedValues(gated.keys, gated.recs));
      var score := Conclude(claim, evidence, perSource, s, h).value.score;
      score == (1.0 - s.blendAlpha) * h.0 + s.blendAlpha * nliScore &&
      (if h.0 <= nliScore then h.0 <= score <= nliScore else nliScore <= score <= h.0)
  {
    var gated := GateAll(perSource, s);
    var nliScore := NliScore(IncludedValues(gated.keys, gated.recs));
    BlendBetween(h.0, nliScore, s.blendAlpha);
  }

  /** Every evidence record comes from a picked result whose page loaded. */
  lemma EvidenceFromPicked(picked: seq<Hit>, fetch: string -> Page, claim: string, chunksPerPage: int, ev: Evidence)
    requires ev in Gather(Fetched(picked, fetch), claim, chunksPerPage)
    ensures exists i ::
      0 <= i < |picked| && fetch(picked[i].link).ok && ev == EvidenceOf(fetch(picked[i].link), claim, chunksPerPage)
  {
    var pages := Fetched(picked, fetch);
    var k :| 0 <= k < |Gather(pages, claim, chunksPerPage)| && Gather(pages, claim, chunksPerPage)[k] == ev;
    GatherFromOkPages(pages, claim, chunksPerPage, k);
    var i :| 0 <= i < |pages| && pages[i] == OkPages(pages)[k];
  }

  /**
   * End to end: a successful run reports the claim with a score in
   * [0, 100] and at most five sources, each the evidence of a picked
   * search result whose page loaded and whose source passed both gates.
   */
  lemma PipelineReport(
    claim: string, file: Option<Json>, organic: seq<Organic>, domainOf: string -> string,
    fetch: string -> Page, nli: (string, string) -> Scores, now: int,
    searchK: int, fetchK: int, chunksPerPage: int)
    requires Pipeline(claim, file, organic, domainOf, fetch, nli, now, searchK, fetchK, chunksPerPage).Success?
    ensures var rep := Pipeline(claim, file, organic, domainOf, fetch, nli, now, searchK, fetchK, chunksPerPage).value;
      rep.claim == claim && rep.notes == Notes && 0.0 <= rep.score <= 100.0 && |rep.sources| <= 5
    ensures var rep := Pipeline(claim, file, organic, domainOf, fetch, nli, now, searchK, fetchK, chunksPerPage).value;
      var picked := PyPrefix(SearchResults(organic, searchK, domainOf), fetchK);
      forall x :: x in rep.sources ==>
        x.included && x.evaluated &&
        (exists i :: 0 <= i < |picked| && fetch(picked[i].link).ok &&
           x.ev == EvidenceOf(fetch(picked[i].link), claim, chunksPerPage))
  {
    var s := FromConfig(GetCfg(file)).value;
    var picked := PyPrefix(SearchResults(organic, searchK, domainOf), fetchK);
    var evidence := Gather(Fetched(picked, fetch), claim, chunksPerPage);
    var h := HeuristicScore(evidence, now, s).value;
    var per := PerSource(evidence, claim, nli, s);
    PerSourceEntries(evidence, claim, nli, s);
    assert Pipeline(claim, file, organic, domainOf, fetch, nli, now, searchK, fetchK, chunksPerPage) ==
      Conclude(claim, evidence, per, s, h);
    ConcludeSources(claim, evidence, per, s, h);
    forall x | x in Conclude(claim, evidence, per, s, h).value.sources
      ensures exists i ::
        0 <= i < |picked| && fetch(picked[i].link).ok && x.ev == EvidenceOf(fetch(picked[i].link), claim, chunksPerPage)
    {
      EvidenceFromPicked(picked, fetch, claim, chunksPerPage, x.ev);
    }
  }

  /** When no search result's page loads there is no evidence at all. */
  lemma NothingLoads(picked: seq<Hit>, fetch: string -> Page, claim: string, chunksPerPage: int)
    requires forall u :: !fetch(u).ok
    ensures Gather(Fetched(picked, fetch), claim, chunksPerPage) == []
  {
    var pages := Fetched(picked, fetch);
    OkPagesSpec(pages);
    if OkPages(pages) != [] {
      assert OkPages(pages)[0] in OkPages(pages);
    }
  }

  /** Steps 8 to 12 without evidence: the NLI score is 0 and no source is shown. */
  lemma ConcludeWithoutEvidence(claim: string, nli: (string, string) -> Scores, s: Settings, h: (real, real, Coverage))
    ensures PerSource([], claim, nli, s) == EmptyTable()
    ensures Conclude(claim, [], EmptyTable(), s, h) ==
      Success(Report(claim, Blend(h.0, 0.0, s.blendAlpha), 0, h.2, [], Notes))
  {
    assert Queue([], claim, s) == [];
    assert EvidenceDomains([]) == {};
    assert TopSources([]) == [];
  }

  /**
   * Worked example: without a configuration file, a run in which no page
   * loads scores 60 * 0.5 = 30 on the heuristic side (no domains is low
   * coverage) and 0 on the NLI side, so 0.25 * 30 + 0.75 * 0 = 7.5 overall,
   * with no domains and no sources.
   */
  lemma NoPageLoads(
    claim: string, organic: seq<Organic>, domainOf: string -> string,
    fetch: string -> Page, nli: (string, string) -> Scores, now: int,
    searchK: int, fetchK: int, chunksPerPage: int)
    requires forall u :: !fetch(u).ok
    ensures Pipeline(claim, None, organic, domainOf, fetch, nli, now, searchK, fetchK, chunksPerPage) ==
      Success(Report(claim, 7.5, 0, Low, [], Notes))
  {
    NoFileSettings();
    var s := DefaultSettings();
    var picked := PyPrefix(SearchResults(organic, searchK, domainOf), fetchK);
    NothingLoads(picked, fetch, claim, chunksPerPage);
    assert EvidenceDomains([]) == {};
    assert HeuristicScore([], now, s) == Success((30.0, 0.5, Low));
    ConcludeWithoutEvidence(claim, nli, s, (30.0, 0.5, Low));
    assert Blend(30.0, 0.0, 0.75) == 7.5;
  }
}
