/**
 * The stages of `verify_claim_pipeline` (core/verify.py) as functions:
 * gathering evidence from the fetched pages, the keyword gate in front of
 * the NLI model, the per-source table of NLI maxima, the two quality gates,
 * the score blend and the ranked list of sources.
 *
 * The NLI model is a function from (chunk, claim) to three probabilities;
 * what it computes is not modelled, only that each output lies in [0, 1].
 */
module Aggregate {
  import opened Wrappers
  import opened Config
  import opened Seqs
  import opened Utils
  import opened Settings
  import opened Heuristic
  import opened RealArith

  type Prob = r: real | 0.0 <= r <= 1.0

  /** What the NLI model returns for one chunk against the claim. */
  datatype Scores = Scores(entail: Prob, contra: Prob, neutral: Prob)

  /** A fetched page. Its text arrives split into sentences; `publishedAt` is the parsed date. */
  datatype Page = Page(
    ok: bool, url: string, domain: string, title: string,
    publishedAt: Option<int>, language: string, sentences: seq<string>)

  /** A chunk that passed the keyword gate, queued for the NLI model. */
  datatype Candidate = Candidate(domain: string, url: string, chunk: string)

  /** One entry of `per_source`. A component of 0.0 stands for the key being absent. */
  datatype Record = Record(
    domain: string, url: string,
    maxEntail: real, maxContra: real, neutral: real,
    evaluated: bool, bestEnt: string, bestContra: string,
    included: bool, component: real)

  /** A Python dictionary keyed by URL: its entries and its keys in insertion order. */
  datatype Table = Table(keys: seq<string>, recs: map<string, Record>)

  /** Each key once, and exactly the keys of the entries. */
  ghost predicate ValidTable(t: Table) {
    && (forall i, j :: 0 <= i < j < |t.keys| ==> t.keys[i] != t.keys[j])
    && (forall k :: k in t.recs <==> k in t.keys)
  }

  function EmptyTable(): (t: Table)
    ensures ValidTable(t)
  {
    Table([], map[])
  }

  /** `d[k] = v`: a new key goes to the end, an existing one keeps its place. */
  function Put(t: Table, k: string, v: Record): (r: Table)
    ensures ValidTable(t) ==> ValidTable(r)
    ensures r.recs == t.recs[k := v]
    ensures k in t.recs ==> r.keys == t.keys
    ensures k !in t.recs ==> r.keys == t.keys + [k]
  {
    if k in t.recs then Table(t.keys, t.recs[k := v]) else Table(t.keys + [k], t.recs[k := v])
  }

  // ---------------------------------------------------------------------
  // Evidence and the keyword gate

  /** The evidence record built from a fetched page. */
  function EvidenceOf(page: Page, claim: string, chunksPerPage: int): Evidence {
    Evidence(page.url, page.domain, page.title, page.publishedAt, page.language,
             SelectTopChunks(page.sentences, claim, chunksPerPage))
  }

  /** The pages fetched successfully, in fetch order. */
  function OkPages(pages: seq<Page>): (r: seq<Page>)
    ensures |r| <= |pages|
  {
    if pages == [] then []
    else
      var last := pages[|pages| - 1];
      OkPages(pages[..|pages| - 1]) + (if last.ok then [last] else [])
  }

  /** The evidence list: one record per page fetched successfully, in fetch order. */
  function Gather(pages: seq<Page>, claim: string, chunksPerPage: int): (r: seq<Evidence>)
    ensures |r| == |OkPages(pages)|
  {
    var ok := OkPages(pages);
    seq(|ok|, i requires 0 <= i < |ok| => EvidenceOf(ok[i], claim, chunksPerPage))
  }

  /** Keeping the successful pages distributes over concatenation: pages contribute independently, in order. */
  lemma {:induction false} OkPagesAppend(a: seq<Page>, b: seq<Page>)
    ensures OkPages(a + b) == OkPages(a) + OkPages(b)
    decreases |b|
  {
    if b == [] {
      assert a + b == a;
    } else {
      var b' := b[..|b| - 1];
      assert (a + b)[..|a + b| - 1] == a + b';
      assert (a + b)[|a + b| - 1] == b[|b| - 1];
      OkPagesAppend(a, b');
    }
  }

  lemma OkPagesSkip(a: seq<Page>, p: Page, b: seq<Page>)
    requires !p.ok
    ensures OkPages(a + [p] + b) == OkPages(a + b)
  {
    OkPagesAppend(a + [p], b);
    OkPagesAppend(a, [p]);
    OkPagesAppend(a, b);
    assert OkPages([p]) == [];
  }

  /** A page that failed to fetch contributes nothing, wherever it sits. */
  lemma FailedPageIgnored(a: seq<Page>, p: Page, b: seq<Page>, claim: string, chunksPerPage: int)
    requires !p.ok
    ensures Gather(a + [p] + b, claim, chunksPerPage) == Gather(a + b, claim, chunksPerPage)
  {
    OkPagesSkip(a, p, b);
  }

  /** Fetching one more page adds its evidence record at the end iff the fetch succeeded. */
  lemma GatherSnoc(pages: seq<Page>, p: Page, claim: string, chunksPerPage: int)
    ensures Gather(pages + [p], claim, chunksPerPage) ==
      Gather(pages, claim, chunksPerPage) + (if p.ok then [EvidenceOf(p, claim, chunksPerPage)] else [])
  {
    assert (pages + [p])[..|pages|] == pages;
    assert OkPages(pages + [p]) == OkPages(pages) + (if p.ok then [p] else []);
  }

  /** Exactly the successful pages are kept, each once, in fetch order. */
  lemma {:induction false} OkPagesSpec(pages: seq<Page>)
    ensures forall p :: p in OkPages(pages) <==> p in pages && p.ok
  {
    if pages != [] {
      OkPagesSpec(pages[..|pages| - 1]);
      assert pages == pages[..|pages| - 1] + [pages[|pages| - 1]];
    }
  }

  /** Every evidence record comes from a page that was fetched successfully. */
  lemma GatherFromOkPages(pages: seq<Page>, claim: string, chunksPerPage: int, i: nat)
    requires i < |Gather(pages, claim, chunksPerPage)|
    ensures OkPages(pages)[i] in pages && OkPages(pages)[i].ok
    ensures Gather(pages, claim, chunksPerPage)[i] == EvidenceOf(OkPages(pages)[i], claim, chunksPerPage)
  {
    OkPagesSpec(pages);
    assert OkPages(pages)[i] in OkPages(pages);
  }

  /** The chunks of one page that reach the keyword threshold, in chunk order. */
  function ChunkCandidates(ev: Evidence, chunks: seq<string>, kws: seq<string>, kwMin: int): (r: seq<Candidate>)
    ensures |r| <= |chunks|
  {
    if chunks == [] then []
    else
      var ch := chunks[|chunks| - 1];
      ChunkCandidates(ev, chunks[..|chunks| - 1], kws, kwMin)
        + (if KeywordScore(ch, kws) >= kwMin then [Candidate(ev.domain, ev.url, ch)] else [])
  }

  /** `all_chunks` before the cap: page by page, the chunks that pass the keyword gate. */
  function Candidates(evidence: seq<Evidence>, kws: seq<string>, kwMin: int): seq<Candidate> {
    if evidence == [] then []
    else
      var last := evidence[|evidence| - 1];
      Candidates(evidence[..|evidence| - 1], kws, kwMin) + ChunkCandidates(last, last.chunks, kws, kwMin)
  }

  /** One more evidence record queues its own matching chunks after the others. */
  lemma CandidatesSnoc(evidence: seq<Evidence>, ev: Evidence, kws: seq<string>, kwMin: int)
    ensures Candidates(evidence + [ev], kws, kwMin) == Candidates(evidence, kws, kwMin) + ChunkCandidates(ev, ev.chunks, kws, kwMin)
  {
    assert (evidence + [ev])[..|evidence|] == evidence;
  }

  /** A chunk passes the gate iff it matches at least `kwMin` keywords; it keeps its page's URL and domain. */
  lemma {:induction false} ChunkCandidatesSpec(ev: Evidence, chunks: seq<string>, kws: seq<string>, kwMin: int)
    ensures forall c :: c in ChunkCandidates(ev, chunks, kws, kwMin) <==>
      c.url == ev.url && c.domain == ev.domain && c.chunk in chunks && KeywordScore(c.chunk, kws) >= kwMin
  {
    if chunks != [] {
      ChunkCandidatesSpec(ev, chunks[..|chunks| - 1], kws, kwMin);
      assert chunks == chunks[..|chunks| - 1] + [chunks[|chunks| - 1]];
    }
  }

  /** The queue is formed page after page: it distributes over concatenation of the evidence. */
  lemma {:induction false} CandidatesAppend(a: seq<Evidence>, b: seq<Evidence>, kws: seq<string>, kwMin: int)
    ensures Candidates(a + b, kws, kwMin) == Candidates(a, kws, kwMin) + Candidates(b, kws, kwMin)
    decreases |b|
  {
    if b == [] {
      assert a + b == a;
    } else {
      var b' := b[..|b| - 1];
      assert (a + b)[..|a + b| - 1] == a + b';
      assert (a + b)[|a + b| - 1] == b[|b| - 1];
      CandidatesAppend(a, b', kws, kwMin);
    }
  }

  /** Every queued chunk is a chunk of some evidence record that passed the gate, under that record's URL. */
  lemma {:induction false} CandidatesFromEvidence(evidence: seq<Evidence>, kws: seq<string>, kwMin: int, c: Candidate)
    requires c in Candidates(evidence, kws, kwMin)
    ensures exists i :: 0 <= i < |evidence| && c.url == evidence[i].url && c.domain == evidence[i].domain && c.chunk in evidence[i].chunks && KeywordScore(c.chunk, kws) >= kwMin
  {
    var init := evidence[..|evidence| - 1];
    var last := evidence[|evidence| - 1];
    if c in Candidates(init, kws, kwMin) {
      CandidatesFromEvidence(init, kws, kwMin, c);
      var i :| 0 <= i < |init| && c.url == init[i].url && c.domain == init[i].domain &&
        c.chunk in init[i].chunks && KeywordScore(c.chunk, kws) >= kwMin;
      assert evidence[i] == init[i];
    } else {
      ChunkCandidatesSpec(last, last.chunks, kws, kwMin);
    }
  }

  /** The safety cap: `all_chunks[:max_total]` when the queue is longer than `max_total`. */
  function Cap(cands: seq<Candidate>, maxTotal: int): (r: seq<Candidate>)
    ensures |r| <= |cands| && r == cands[..|r|]
    ensures maxTotal >= 0 ==> |r| == if |cands| <= maxTotal then |cands| else maxTotal
  {
    if |cands| > maxTotal then PyPrefix(cands, maxTotal) else cands
  }

  // ---------------------------------------------------------------------
  // The per-source table

  /** The entry `setdefault` creates for a URL's first queued chunk. */
  function Fresh(item: Candidate): Record {
    Record(item.domain, item.url, 0.0, 0.0, 0.0, true, "", "", false, 0.0)
  }

  function Max(a: real, b: real): real {
    if a >= b then a else b
  }

  /** One chunk's NLI result folded into its source's entry: strict increases record the chunk. */
  function Absorb(rec: Record, chunk: string, sc: Scores): Record {
    var r1 := if sc.entail > rec.maxEntail then rec.(maxEntail := sc.entail, bestEnt := chunk) else rec;
    var r2 := if sc.contra > r1.maxContra then r1.(maxContra := sc.contra, bestContra := chunk) else r1;
    r2.(neutral := Max(r2.neutral, sc.neutral))
  }

  /** `per_source` after the NLI loop over the queue. */
  function Aggregate(items: seq<Candidate>, claim: string, nli: (string, string) -> Scores): Table {
    if items == [] then EmptyTable()
    else
      var t := Aggregate(items[..|items| - 1], claim, nli);
      var item := items[|items| - 1];
      var rec := if item.url in t.recs then t.recs[item.url] else Fresh(item);
      Put(t, item.url, Absorb(rec, item.chunk, nli(item.chunk, claim)))
  }

  /** The table has one entry per queued URL, each evaluated, under its own URL, with the first chunk's domain. */
  lemma {:induction false} AggregateKeys(items: seq<Candidate>, claim: string, nli: (string, string) -> Scores)
    ensures ValidTable(Aggregate(items, claim, nli))
    ensures forall u :: u in Aggregate(items, claim, nli).recs <==> exists i :: 0 <= i < |items| && items[i].url == u
    ensures forall u :: u in Aggregate(items, claim, nli).recs ==>
      var rec := Aggregate(items, claim, nli).recs[u];
      rec.url == u && rec.evaluated && !rec.included && rec.component == 0.0
  {
    if items != [] {
      var init := items[..|items| - 1];
      AggregateKeys(init, claim, nli);
      assert forall i :: 0 <= i < |init| ==> init[i] == items[i];
    }
  }

  /** The entry's domain is the domain of the first queued chunk with that URL. */
  lemma {:induction false} AggregateDomain(items: seq<Candidate>, claim: string, nli: (string, string) -> Scores, i: nat)
    requires i < |items|
    requires forall j :: 0 <= j < i ==> items[j].url != items[i].url
    ensures items[i].url in Aggregate(items, claim, nli).recs
    ensures Aggregate(items, claim, nli).recs[items[i].url].domain == items[i].domain
  {
    var init := items[..|items| - 1];
    AggregateKeys(init, claim, nli);
    if i < |items| - 1 {
      assert init[i] == items[i];
      AggregateDomain(init, claim, nli, i);
    } else {
      assert items[i].url !in Aggregate(init, claim, nli).recs;
    }
  }

  datatype Side = Support | Contradiction

  function SideProb(sc: Scores, side: Side): real {
    match side case Support => sc.entail case Contradiction => sc.contra
  }

  function Peak(rec: Record, side: Side): real {
    match side case Support => rec.maxEntail case Contradiction => rec.maxContra
  }

  function Best(rec: Record, side: Side): string {
    match side case Support => rec.bestEnt case Contradiction => rec.bestContra
  }

  /** The probability the model gives a queued chunk, on one side. */
  function ItemProb(item: Candidate, claim: string, nli: (string, string) -> Scores, side: Side): real {
    SideProb(nli(item.chunk, claim), side)
  }

  lemma AbsorbSide(rec: Record, chunk: string, sc: Scores, side: Side)
    ensures Peak(Absorb(rec, chunk, sc), side) == Max(Peak(rec, side), SideProb(sc, side))
    ensures Best(Absorb(rec, chunk, sc), side) == if SideProb(sc, side) > Peak(rec, side) then chunk else Best(rec, side)
  {
  }

  /** A source's maximum on either side starts from 0.0 and bounds every probability its chunks received. */
  lemma {:induction false} PeakIsUpperBound(items: seq<Candidate>, claim: string, nli: (string, string) -> Scores, u: string, side: Side)
    requires u in Aggregate(items, claim, nli).recs
    ensures 0.0 <= Peak(Aggregate(items, claim, nli).recs[u], side)
    ensures forall i :: 0 <= i < |items| && items[i].url == u ==>
      ItemProb(items[i], claim, nli, side) <= Peak(Aggregate(items, claim, nli).recs[u], side)
  {
    var init := items[..|items| - 1];
    var item := items[|items| - 1];
    var t := Aggregate(init, claim, nli);
    var rec := if item.url in t.recs then t.recs[item.url] else Fresh(item);
    AbsorbSide(rec, item.chunk, nli(item.chunk, claim), side);
    assert forall i :: 0 <= i < |init| ==> init[i] == items[i];
    if u in t.recs {
      PeakIsUpperBound(init, claim, nli, u, side);
    } else {
      AggregateKeys(init, claim, nli);
    }
  }

  /** A source's maximum is 0.0 or a probability one of its chunks received. */
  lemma {:induction false} PeakIsAttained(items: seq<Candidate>, claim: string, nli: (string, string) -> Scores, u: string, side: Side)
    requires u in Aggregate(items, claim, nli).recs
    ensures var p := Peak(Aggregate(items, claim, nli).recs[u], side);
      p == 0.0 || exists i :: 0 <= i < |items| && items[i].url == u && ItemProb(items[i], claim, nli, side) == p
  {
    var init := items[..|items| - 1];
    var item := items[|items| - 1];
    var t := Aggregate(init, claim, nli);
    var rec := if item.url in t.recs then t.recs[item.url] else Fresh(item);
    AbsorbSide(rec, item.chunk, nli(item.chunk, claim), side);
    if u in t.recs {
      PeakIsAttained(init, claim, nli, u, side);
      var p := Peak(t.recs[u], side);
      if p != 0.0 && Peak(Aggregate(items, claim, nli).recs[u], side) == p {
        var i :| 0 <= i < |init| && init[i].url == u && ItemProb(init[i], claim, nli, side) == p;
        assert items[i] == init[i];
      }
    }
  }

  /**
   * The recorded best chunk is the earliest chunk that reached the maximum:
   * the one that last raised it strictly. With a maximum of 0.0 no chunk
   * raised it and the best chunk stays "".
   */
  lemma {:induction false} BestIsFirstPeak(items: seq<Candidate>, claim: string, nli: (string, string) -> Scores, u: string, side: Side)
    returns (k: nat)
    requires u in Aggregate(items, claim, nli).recs
    requires Peak(Aggregate(items, claim, nli).recs[u], side) > 0.0
    ensures k < |items| && items[k].url == u
    ensures ItemProb(items[k], claim, nli, side) == Peak(Aggregate(items, claim, nli).recs[u], side)
    ensures Best(Aggregate(items, claim, nli).recs[u], side) == items[k].chunk
    ensures forall j :: 0 <= j < k && items[j].url == u ==>
      ItemProb(items[j], claim, nli, side) < Peak(Aggregate(items, claim, nli).recs[u], side)
  {
    var init := items[..|items| - 1];
    var item := items[|items| - 1];
    var t := Aggregate(init, claim, nli);
    var rec := if item.url in t.recs then t.recs[item.url] else Fresh(item);
    var sc := nli(item.chunk, claim);
    AbsorbSide(rec, item.chunk, sc, side);
    assert forall i :: 0 <= i < |init| ==> init[i] == items[i];
    if item.url == u && SideProb(sc, side) > Peak(rec, side) {
      k := |items| - 1;
      if u in t.recs {
        PeakIsUpperBound(init, claim, nli, u, side);
      } else {
        AggregateKeys(init, claim, nli);
      }
    } else {
      assert u in t.recs;
      k := BestIsFirstPeak(init, claim, nli, u, side);
    }
  }

  /** With no positive probability the best chunk is still "". */
  lemma {:induction false} NoPeakNoBest(items: seq<Candidate>, claim: string, nli: (string, string) -> Scores, u: string, side: Side)
    requires u in Aggregate(items, claim, nli).recs
    requires Peak(Aggregate(items, claim, nli).recs[u], side) == 0.0
    ensures Best(Aggregate(items, claim, nli).recs[u], side) == ""
  {
    var init := items[..|items| - 1];
    var item := items[|items| - 1];
    var t := Aggregate(init, claim, nli);
    var rec := if item.url in t.recs then t.recs[item.url] else Fresh(item);
    AbsorbSide(rec, item.chunk, nli(item.chunk, claim), side);
    if u in t.recs {
      PeakIsUpperBound(init, claim, nli, u, side);
      NoPeakNoBest(init, claim, nli, u, side);
    }
  }

  /** The neutral field is the largest neutral probability among the source's chunks, from 0.0. */
  lemma {:induction false} NeutralIsMaximum(items: seq<Candidate>, claim: string, nli: (string, string) -> Scores, u: string)
    requires u in Aggregate(items, claim, nli).recs
    ensures var n := Aggregate(items, claim, nli).recs[u].neutral;
      && 0.0 <= n
      && (forall i :: 0 <= i < |items| && items[i].url == u ==> nli(items[i].chunk, claim).neutral <= n)
      && (n == 0.0 || exists i :: 0 <= i < |items| && items[i].url == u && nli(items[i].chunk, claim).neutral == n)
  {
    var init := items[..|items| - 1];
    var item := items[|items| - 1];
    var t := Aggregate(init, claim, nli);
    assert forall i :: 0 <= i < |init| ==> init[i] == items[i];
    if u in t.recs {
      NeutralIsMaximum(init, claim, nli, u);
    } else {
      AggregateKeys(init, claim, nli);
    }
  }

  // ---------------------------------------------------------------------
  // Entries for evidence the NLI model never saw

  /** The entry for a page none of whose chunks reached the NLI model. */
  function Unevaluated(ev: Evidence): Record {
    Record(ev.domain, ev.url, 0.0, 0.0, 0.0, false, "", "", false, 0.0)
  }

  /** The loop over the evidence, testing membership in the URLs evaluated before it began. */
  function AddFrom(t: Table, evaluated: set<string>, evidence: seq<Evidence>): (r: Table)
    ensures ValidTable(t) ==> ValidTable(r)
  {
    if evidence == [] then t
    else
      var r := AddFrom(t, evaluated, evidence[..|evidence| - 1]);
      var ev := evidence[|evidence| - 1];
      if ev.url in evaluated then r else Put(r, ev.url, Unevaluated(ev))
  }

  function AddUnevaluated(t: Table, evidence: seq<Evidence>): Table {
    AddFrom(t, t.recs.Keys, evidence)
  }

  /** Afterwards every evidence URL has an entry, as well as every URL evaluated before. */
  lemma {:induction false} AddFromKeys(t: Table, evidence: seq<Evidence>)
    ensures forall u :: u in AddFrom(t, t.recs.Keys, evidence).recs <==>
      u in t.recs || exists i :: 0 <= i < |evidence| && evidence[i].url == u
  {
    if evidence != [] {
      var init := evidence[..|evidence| - 1];
      AddFromKeys(t, init);
      assert forall i :: 0 <= i < |init| ==> init[i] == evidence[i];
    }
  }

  /** The evaluated entries are untouched. */
  lemma {:induction false} AddFromKeepsEvaluated(t: Table, evidence: seq<Evidence>)
    ensures forall u :: u in t.recs ==> u in AddFrom(t, t.recs.Keys, evidence).recs
    ensures forall u :: u in t.recs ==> AddFrom(t, t.recs.Keys, evidence).recs[u] == t.recs[u]
  {
    if evidence != [] {
      AddFromKeepsEvaluated(t, evidence[..|evidence| - 1]);
    }
  }

  /** Each added entry is the unevaluated entry of an evidence record with that URL. */
  lemma {:induction false} AddFromAdded(t: Table, evidence: seq<Evidence>, u: string)
    requires u in AddFrom(t, t.recs.Keys, evidence).recs && u !in t.recs
    ensures exists i :: 0 <= i < |evidence| && evidence[i].url == u && AddFrom(t, t.recs.Keys, evidence).recs[u] == Unevaluated(evidence[i])
  {
    var init := evidence[..|evidence| - 1];
    var ev := evidence[|evidence| - 1];
    if ev.url != u {
      AddFromAdded(t, init, u);
      var i :| 0 <= i < |init| && init[i].url == u && AddFrom(t, t.recs.Keys, init).recs[u] == Unevaluated(init[i]);
      assert evidence[i] == init[i];
    }
  }

  /** The evaluated entries keep their places at the front. */
  lemma {:induction false} AddFromKeepsOrder(t: Table, evidence: seq<Evidence>)
    ensures |t.keys| <= |AddFrom(t, t.recs.Keys, evidence).keys|
    ensures AddFrom(t, t.recs.Keys, evidence).keys[..|t.keys|] == t.keys
  {
    if evidence != [] {
      var init := evidence[..|evidence| - 1];
      AddFromKeepsOrder(t, init);
      var r := AddFrom(t, t.recs.Keys, init);
      var ev := evidence[|evidence| - 1];
      if ev.url !in t.recs.Keys && ev.url !in r.recs {
        assert (r.keys + [ev.url])[..|t.keys|] == r.keys[..|t.keys|];
      }
    }
  }

  /** An entry is evaluated iff some queued chunk came from its URL. */
  lemma EvaluatedIffQueued(items: seq<Candidate>, claim: string, nli: (string, string) -> Scores, evidence: seq<Evidence>, u: string)
    requires u in AddUnevaluated(Aggregate(items, claim, nli), evidence).recs
    ensures AddUnevaluated(Aggregate(items, claim, nli), evidence).recs[u].evaluated <==>
      exists i :: 0 <= i < |items| && items[i].url == u
  {
    var t := Aggregate(items, claim, nli);
    AggregateKeys(items, claim, nli);
    AddFromKeepsEvaluated(t, evidence);
    if u !in t.recs {
      AddFromAdded(t, evidence, u);
      var i :| 0 <= i < |evidence| && evidence[i].url == u && AddUnevaluated(t, evidence).recs[u] == Unevaluated(evidence[i]);
    }
  }

  // ---------------------------------------------------------------------
  // The two gates and the component

  /** A source's contribution to the NLI score. */
  function Component(rec: Record, s: Settings): real {
    var v := s.supportScale * rec.maxEntail - s.contradictPenalty * rec.maxContra;
    if s.neutralAs != 0.0 then v + s.neutralAs * rec.neutral else v
  }

  /** An evaluated source with one strong side and enough importance. */
  predicate PassesGates(rec: Record, s: Settings) {
    && rec.evaluated
    && !(Max(rec.maxEntail, rec.maxContra) < s.minSourceConf)
    && !(rec.maxEntail + rec.maxContra < s.minImportance)
  }

  /** The gate loop's effect on one entry. */
  function Gate(rec: Record, s: Settings): (r: Record)
    ensures r.included <==>
      rec.evaluated && Max(rec.maxEntail, rec.maxContra) >= s.minSourceConf && rec.maxEntail + rec.maxContra >= s.minImportance
    ensures r.included ==> r.component == Component(rec, s)
    ensures r.(included := rec.included, component := rec.component) == rec
  {
    if PassesGates(rec, s) then rec.(included := true, component := Component(rec, s)) else rec.(included := false)
  }

  /** The table after the gate loop. */
  function GateAll(t: Table, s: Settings): (r: Table)
    ensures r.keys == t.keys && r.recs.Keys == t.recs.Keys
    ensures forall u :: u in t.recs ==> r.recs[u] == Gate(t.recs[u], s)
  {
    Table(t.keys, map u | u in t.recs :: Gate(t.recs[u], s))
  }

  /** Gating leaves every entry's domain as it was. */
  lemma GateAllKeepsDomains(t: Table, s: Settings)
    ensures forall u :: u in t.recs ==> GateAll(t, s).recs[u].domain == t.recs[u].domain
  {
    forall u | u in t.recs
      ensures GateAll(t, s).recs[u].domain == t.recs[u].domain
    {
      assert GateAll(t, s).recs[u] == Gate(t.recs[u], s);
    }
  }

  /**
   * `nli_vals`: the components of the included entries, in key order. The
   * keys are the table's own, so every key has an entry; a key without one
   * would contribute nothing.
   */
  function IncludedValues(keys: seq<string>, recs: map<string, Record>): (r: seq<real>)
    ensures |r| <= |keys|
  {
    if keys == [] then []
    else
      var k := keys[|keys| - 1];
      IncludedValues(keys[..|keys| - 1], recs) + (if k in recs && recs[k].included then [recs[k].component] else [])
  }

  /** One more key adds its component at the end iff its entry is included. */
  lemma IncludedValuesSnoc(keys: seq<string>, k: string, recs: map<string, Record>)
    ensures IncludedValues(keys + [k], recs) ==
      IncludedValues(keys, recs) + (if k in recs && recs[k].included then [recs[k].component] else [])
  {
    assert (keys + [k])[..|keys|] == keys;
  }

  /** The values are exactly the components of the included entries of the keys. */
  lemma {:induction false} IncludedValuesSpec(keys: seq<string>, recs: map<string, Record>)
    ensures forall v :: v in IncludedValues(keys, recs) <==>
      exists i :: 0 <= i < |keys| && keys[i] in recs && recs[keys[i]].included && recs[keys[i]].component == v
  {
    if keys != [] {
      var init := keys[..|keys| - 1];
      IncludedValuesSpec(init, recs);
      assert forall i :: 0 <= i < |init| ==> init[i] == keys[i];
    }
  }

  /** The worked example: entailment 0.9 and contradiction 0.1 pass both default gates and contribute 80*0.9 - 50*0.1 = 67. */
  lemma WorkedExample(rec: Record)
    requires rec.evaluated && rec.maxEntail == 0.9 && rec.maxContra == 0.1
    ensures Gate(rec, DefaultSettings()).included
    ensures Gate(rec, DefaultSettings()).component == 67.0
  {
  }

  /** Under the defaults, a source with no side at 0.2 fails the first gate, and one whose sides sum below 0.4 the second. */
  lemma DefaultGatesExclude(rec: Record)
    ensures Max(rec.maxEntail, rec.maxContra) < 0.2 ==> !Gate(rec, DefaultSettings()).included
    ensures rec.maxEntail + rec.maxContra < 0.4 ==> !Gate(rec, DefaultSettings()).included
    ensures !rec.evaluated ==> !Gate(rec, DefaultSettings()).included
  {
  }

  /** With probabilities in [0, 1], no neutral term and non-negative scales, a component lies in [-penalty, support]. */
  lemma ComponentRange(rec: Record, s: Settings)
    requires 0.0 <= rec.maxEntail <= 1.0 && 0.0 <= rec.maxContra <= 1.0
    requires s.neutralAs == 0.0 && s.supportScale >= 0.0 && s.contradictPenalty >= 0.0
    ensures -s.contradictPenalty <= Component(rec, s) <= s.supportScale
  {
    var e := s.supportScale * rec.maxEntail;
    var c := s.contradictPenalty * rec.maxContra;
    ScaleProb(s.supportScale, rec.maxEntail);
    ScaleProb(s.contradictPenalty, rec.maxContra);
    assert 0.0 <= e <= s.supportScale && 0.0 <= c <= s.contradictPenalty;
    assert Component(rec, s) == e - c;
  }

  // ---------------------------------------------------------------------
  // Scores

  function Sum(xs: seq<real>): real {
    if xs == [] then 0.0 else Sum(xs[..|xs| - 1]) + xs[|xs| - 1]
  }

  /** The NLI score: the mean of the values, clamped to [0, 100], or 0.0 without values. */
  function NliScore(vals: seq<real>): (r: real)
    ensures 0.0 <= r <= 100.0
    ensures vals == [] ==> r == 0.0
  {
    if vals == [] then 0.0 else Clamp(Sum(vals) / (|vals| as real))
  }

  lemma {:induction false} SumBounds(xs: seq<real>, lo: real, hi: real)
    requires forall i :: 0 <= i < |xs| ==> lo <= xs[i] <= hi
    ensures (|xs| as real) * lo <= Sum(xs) <= (|xs| as real) * hi
  {
    if xs != [] {
      var init := xs[..|xs| - 1];
      assert forall i :: 0 <= i < |init| ==> init[i] == xs[i];
      SumBounds(init, lo, hi);
      assert (|xs| as real) * lo == (|init| as real) * lo + lo;
      assert (|xs| as real) * hi == (|init| as real) * hi + hi;
    }
  }

  /** When every value is already in [0, 100], the NLI score is their plain mean: the clamp never bites. */
  lemma MeanNeedsNoClamp(vals: seq<real>)
    requires vals != []
    requires forall i :: 0 <= i < |vals| ==> 0.0 <= vals[i] <= 100.0
    ensures NliScore(vals) == Sum(vals) / (|vals| as real)
  {
    SumBounds(vals, 0.0, 100.0);
    var n := |vals| as real;
    assert 0.0 <= Sum(vals) / n <= 100.0 by {
      assert Sum(vals) / n * n == Sum(vals);
    }
  }

  /** The final score: the heuristic and NLI scores blended by `alpha`, clamped to [0, 100]. */
  function Blend(heuristic: real, nli: real, alpha: real): (r: real)
    ensures 0.0 <= r <= 100.0
  {
    Clamp(Mix(heuristic, nli, alpha))
  }

  /** For `alpha` in [0, 1] the blend needs no clamp and lies between the two scores. */
  lemma BlendBetween(heuristic: real, nli: real, alpha: real)
    requires 0.0 <= alpha <= 1.0
    requires 0.0 <= heuristic <= 100.0 && 0.0 <= nli <= 100.0
    ensures Blend(heuristic, nli, alpha) == (1.0 - alpha) * heuristic + alpha * nli
    ensures Blend(heuristic, nli, alpha) >= if heuristic <= nli then heuristic else nli
    ensures Blend(heuristic, nli, alpha) <= if heuristic <= nli then nli else heuristic
  {
    var x := Mix(heuristic, nli, alpha);
    MixBetween(heuristic, nli, alpha);
    if heuristic <= nli {
      assert heuristic <= x <= nli;
    } else {
      assert nli <= x <= heuristic;
    }
    assert Clamp(x) == x;
    assert Blend(heuristic, nli, alpha) == x;
  }

  // ---------------------------------------------------------------------
  // The sources shown

  /** One entry of `enriched_sources_full`: the evidence with its source's NLI figures. */
  datatype Source = Source(
    ev: Evidence, evaluated: bool, included: bool,
    maxEntail: real, maxContra: real,
    entExcerpt: string, contraExcerpt: string,
    component: real, domainBonus: real)

  /** A best chunk is shown only when its maximum reaches the excerpt threshold. */
  function Excerpt(best: string, peak: real, threshold: real): (r: string)
    ensures peak < threshold ==> r == ""
    ensures peak >= threshold ==> r == best
  {
    if peak >= threshold then best else ""
  }

  /** `float(cfg.get("BONUS_DOMAINS", {}).get(domain, 1.0))`. */
  function DomainBonus(domain: string, s: Settings): (r: Result<real, ConfigError>)
    ensures s.bonusDomains.JObj? && domain !in ObjMap(s.bonusDomains.entries) ==> r == Success(1.0)
    ensures s.bonusDomains.JObj? && domain in ObjMap(s.bonusDomains.entries) ==> r == AsReal(ObjMap(s.bonusDomains.entries)[domain])
    ensures !s.bonusDomains.JObj? ==> r.Failure?
  {
    if !s.bonusDomains.JObj? then Failure(BadValue)
    else
      var m := ObjMap(s.bonusDomains.entries);
      if domain in m then AsReal(m[domain]) else Success(1.0)
  }

  function MakeSource(ev: Evidence, rec: Record, bonus: real, s: Settings): Source {
    Source(ev, rec.evaluated, rec.included, rec.maxEntail, rec.maxContra,
           Excerpt(rec.bestEnt, rec.maxEntail, s.excerptThreshold),
           Excerpt(rec.bestContra, rec.maxContra, s.excerptThreshold),
           rec.component, bonus)
  }

  /** The evidence whose source entry is included, in evidence order. */
  function IncludedEvidence(evidence: seq<Evidence>, recs: map<string, Record>): (r: seq<Evidence>)
    requires forall i :: 0 <= i < |evidence| ==> evidence[i].url in recs
    ensures |r| <= |evidence|
    ensures forall j :: 0 <= j < |r| ==> r[j] in evidence && r[j].url in recs && recs[r[j].url].included
  {
    if evidence == [] then []
    else
      var ev := evidence[|evidence| - 1];
      IncludedEvidence(evidence[..|evidence| - 1], recs) + (if recs[ev.url].included then [ev] else [])
  }

  /** `enriched_sources_full`, failing where a domain bonus does not convert. */
  function Enrich(evidence: seq<Evidence>, recs: map<string, Record>, s: Settings): Result<seq<Source>, ConfigError>
    requires forall i :: 0 <= i < |evidence| ==> evidence[i].url in recs
  {
    if evidence == [] then Success([])
    else
      var ev := evidence[|evidence| - 1];
      var rec := recs[ev.url];
      var before := Enrich(evidence[..|evidence| - 1], recs, s);
      if !rec.included then before
      else
        match (before, DomainBonus(rec.domain, s))
        case (Success(xs), Success(b)) => Success(xs + [MakeSource(ev, rec, b, s)])
        case _ => Failure(BadValue)
  }

  /** Once a prefix of the evidence fails to enrich, the whole list does. */
  lemma {:induction false} EnrichFailsFrom(evidence: seq<Evidence>, i: nat, recs: map<string, Record>, s: Settings)
    requires i <= |evidence|
    requires forall j :: 0 <= j < |evidence| ==> evidence[j].url in recs
    requires Enrich(evidence[..i], recs, s).Failure?
    ensures Enrich(evidence, recs, s).Failure?
  {
    if i < |evidence| {
      var init := evidence[..|evidence| - 1];
      assert init[..i] == evidence[..i];
      EnrichFailsFrom(init, i, recs, s);
    } else {
      assert evidence[..i] == evidence;
    }
  }

  /** The enriched list fails iff the domain bonus of some included entry fails. */
  lemma {:induction false} EnrichSucceeds(evidence: seq<Evidence>, recs: map<string, Record>, s: Settings)
    requires forall i :: 0 <= i < |evidence| ==> evidence[i].url in recs
    ensures Enrich(evidence, recs, s).Success? <==>
      forall ev :: ev in IncludedEvidence(evidence, recs) ==> DomainBonus(recs[ev.url].domain, s).Success?
  {
    if evidence != [] {
      var init := evidence[..|evidence| - 1];
      assert forall i :: 0 <= i < |init| ==> init[i] == evidence[i];
      EnrichSucceeds(init, recs, s);
    }
  }

  /** The same over a gated table, stated with the domains of the entries before gating. */
  lemma EnrichGatedSucceeds(evidence: seq<Evidence>, t: Table, s: Settings)
    requires forall i :: 0 <= i < |evidence| ==> evidence[i].url in t.recs
    ensures Enrich(evidence, GateAll(t, s).recs, s).Success? <==>
      forall ev :: ev in IncludedEvidence(evidence, GateAll(t, s).recs) ==> DomainBonus(t.recs[ev.url].domain, s).Success?
  {
    EnrichSucceeds(evidence, GateAll(t, s).recs, s);
    GateAllKeepsDomains(t, s);
  }

  /**
   * The enriched list is the included evidence, in evidence order, each
   * with its entry's figures and its domain bonus.
   */
  lemma {:induction false} EnrichContents(evidence: seq<Evidence>, recs: map<string, Record>, s: Settings)
    requires forall i :: 0 <= i < |evidence| ==> evidence[i].url in recs
    requires Enrich(evidence, recs, s).Success?
    ensures |Enrich(evidence, recs, s).value| == |IncludedEvidence(evidence, recs)|
    ensures forall j :: 0 <= j < |Enrich(evidence, recs, s).value| ==>
      var ev := IncludedEvidence(evidence, recs)[j];
      DomainBonus(recs[ev.url].domain, s).Success? &&
      Enrich(evidence, recs, s).value[j] == MakeSource(ev, recs[ev.url], DomainBonus(recs[ev.url].domain, s).value, s)
  {
    if evidence != [] {
      var init := evidence[..|evidence| - 1];
      assert forall i :: 0 <= i < |init| ==> init[i] == evidence[i];
      var ev := evidence[|evidence| - 1];
      assert Enrich(init, recs, s).Success?;
      EnrichContents(init, recs, s);
    }
  }

  /** Presentation order: higher domain bonus first, then the higher component. */
  function SourceKey(): Source -> (real, real) {
    (src: Source) => (src.domainBonus, src.component)
  }

  function Ahead(): ((real, real), (real, real)) -> bool {
    (a: (real, real), b: (real, real)) => a.0 > b.0 || (a.0 == b.0 && a.1 > b.1)
  }

  lemma AheadIsStrictTotalOrder()
    ensures StrictTotalOrder(Ahead())
  {
  }

  /** The five sources shown: the enriched list stably sorted by (bonus, component), descending. */
  function TopSources(sources: seq<Source>): seq<Source> {
    Take(SortBy(sources, SourceKey(), Ahead()), 5)
  }

  /**
   * At most five sources are shown, all drawn from the enriched list, in
   * non-increasing (bonus, component) order; and no source left out ranks
   * ahead of one shown.
   */
  lemma TopSourcesSpec(sources: seq<Source>)
    ensures |TopSources(sources)| == if |sources| <= 5 then |sources| else 5
    ensures forall x :: x in TopSources(sources) ==> x in sources
    ensures forall i, j :: 0 <= i < j < |TopSources(sources)| ==>
      var a := TopSources(sources)[i]; var b := TopSources(sources)[j];
      a.domainBonus > b.domainBonus || (a.domainBonus == b.domainBonus && a.component >= b.component)
    ensures forall x, i :: x in sources && x !in TopSources(sources) && 0 <= i < |TopSources(sources)| ==>
      !Ahead()(SourceKey()(x), SourceKey()(TopSources(sources)[i]))
  {
    var ranked := SortBy(sources, SourceKey(), Ahead());
    AheadIsStrictTotalOrder();
    SortBySorted(sources, SourceKey(), Ahead());
    SortByMembers(sources, SourceKey(), Ahead());
    forall x | x in sources && x !in TopSources(sources) {
      TakeSortedBeats(ranked, SourceKey(), Ahead(), 5, x);
    }
  }

  /** Shown sources with equal bonus and component keep their order in the enriched list. */
  lemma TopSourcesStable(sources: seq<Source>, i: nat, j: nat) returns (p: nat, q: nat)
    requires i < j < |TopSources(sources)|
    requires SourceKey()(TopSources(sources)[i]) == SourceKey()(TopSources(sources)[j])
    ensures p < q < |sources|
    ensures sources[p] == TopSources(sources)[i] && sources[q] == TopSources(sources)[j]
  {
    AheadIsStrictTotalOrder();
    p, q := SortByKeepsOrder(sources, SourceKey(), Ahead(), i, j);
  }
}
