# Fact_Check claim verifier, modelled in Dafny

Fact_Check scores how well a free-text claim is backed by the web. Given a
claim, `verify_claim_pipeline` (core/verify.py) does the following:

1. It searches the web through the Serper API (core/search.py) and keeps one
   result per domain.
2. It fetches the best-ranked pages and cuts each page's text into chunks of
   at most about 500 characters (core/utils.py).
3. It keeps the chunks that match enough of the claim's keywords.
4. It runs an NLI (natural-language inference) model on those chunks. For
   each source URL it records the largest entailment, contradiction and
   neutral probabilities, and the chunks that reached them.
5. It drops sources that fail two quality gates.
6. It blends a heuristic score with the mean NLI score of the remaining
   sources. The heuristic score is a base score scaled by domain coverage,
   plus bonuses for favoured domains and recent pages.
7. It returns the claim, the score and the five top-ranked sources.

Configuration comes from a JSON file laid over compiled-in defaults
(core/config.py).

The project has one module per concern:

- `Config`: the defaults, `_load_from_disk` and `get_cfg`.
- `Settings`: every `cfg.get` that affects the report, with its inline fallback
  and Python's `float`/`int` conversion.
- `Utils`: sentence merging into chunks, keyword extraction, keyword scoring
  and top-chunk selection.
- `Search`: the post-processing of the search response.
- `Heuristic`: domain weight, recency weight, coverage bucket and the
  heuristic score.
- `Aggregate`: the pipeline's stages as functions over values.
- `Pipeline`: the pipeline as the source writes it, one loop per stage.
- `Seqs`, `RealArith`, `Wrappers`: list slicing and stable sorting, facts
  about real products, and Option/Result.

Each loop of the source is a Dafny method. It is proved equal to the function
that states what the loop computes. The properties are then proved about those
functions. In particular, `Pipeline.VerifyClaimPipeline` returns exactly
`Pipeline.Pipeline`, and the lemmas about `Pipeline` and `Conclude` describe
the report.

Some things are inputs to the model rather than modelled:

- the search response's organic items;
- the page fetcher;
- the NLI model;
- the URL-to-domain parser;
- the parsed configuration file;
- the current time.

Facts about the code that the model follows:

- Only the bucketed coverage factor (`COVERAGE_LOW/HIGH_*`) is used. The
  `COVERAGE_TARGET_DOMAINS`/`MIN_FACTOR`/`MAX_FACTOR` defaults are loaded but
  never read.
- A domain without an exact weight takes the weight of the *first* suffix it
  ends with, in file order, not the longest suffix.
- `BASE_SCORE` always comes from the loaded configuration. Its inline
  fallback of 45 is unreachable because the defaults carry 60.
- `nli_vals` are collected in `per_source` insertion order. So are the
  sources before they are sorted.

## Model

| member | source | states |
|---|---|---|
| Config.ObjMap | core/config.py:25 | a decoded JSON object has exactly the keys its entries name |
| Config.ObjMapLast | core/config.py:25 | for a repeated key the last occurrence's value wins |
| Config.PairOf | core/config.py:27 | one list element yields at most one entry, and is a pair only when it is a list of two, a two-character string or a two-key object; it is not a pair when its key is unhashable |
| Config.PairsOf | core/config.py:27 | a list updates the dictionary iff every element is a pair |
| Config.LoadFromDisk | core/config.py:23-28 | succeeds iff `update(data or {})` accepts the document, which every mapping and every falsy document does; every default key is present; a key the document sets holds the document's value, and every other key holds its default |
| Config.PairListOverrides | core/config.py:27 | a file holding a list of pairs sets a pair's key to its value unless a later element sets the same key |
| Config.PairListExample | core/config.py:23-28 | the file `[["BASE_SCORE", 90]]` makes the base score 90 |
| Config.NonPairListGivesDefaults | core/config.py:27-39 | a list with an element that is not a pair makes the load raise, giving exactly the defaults |
| Config.GetCfg | core/config.py:30-39 | every default key is present; a missing or unparsable file, or a failed merge, gives exactly the defaults |
| Config.FileKeyOverrides | core/config.py:26-27 | a key the file sets (its last occurrence) overrides the default |
| Config.AbsentKeyKeepsDefault | core/config.py:26-27 | a default key the file does not mention keeps its default value |
| Config.FalsyDocumentGivesDefaults | core/config.py:27 | `data or {}`: a null, false, zero or empty document yields exactly the defaults |
| Config.PyDictKeys | core/verify.py:28 | a decoded object iterates over each of its keys exactly once |
| Config.PyDictValues | core/verify.py:28 | each iterated key holds the value of its last occurrence |
| Config.PyDictNonEmpty | core/verify.py:40 | a decoded object with entries iterates over at least one key |
| Settings.DigitsValue | core/verify.py:42 | a one-digit string has the value of its digit |
| Settings.AsReal | core/verify.py:27 | `float(v)` succeeds exactly on numbers, booleans and digit strings; a number converts to itself and a digit string to the number it spells |
| Settings.Trunc | core/verify.py:42 | `int(x)` truncates toward zero, for positive and negative values alike |
| Settings.AsInt | core/verify.py:51 | `int(v)` succeeds exactly on numbers, booleans and digit strings; it truncates a number and reads a digit string as the number it spells |
| Settings.RealSetting | core/verify.py:53 | `float(cfg.get(key, fallback))`: an absent key gives the fallback, a present one its converted value |
| Settings.IntSetting | core/verify.py:51 | `int(cfg.get(key, fallback))`: an absent key gives the fallback, a present one its converted value |
| Settings.JsonSetting | core/verify.py:25 | `cfg.get(key, fallback)` for a setting read as JSON |
| Settings.FromConfig | core/verify.py:51-55 | the run's settings exist iff all seventeen scalar settings convert; each field then holds its setting's converted value, or its inline fallback when the key is absent; the four JSON settings are the raw values, with `{}` or `[]` when absent |
| Settings.DefaultCoverageSettings | core/verify.py:51-55 | with no file, the coverage thresholds are 4 and 8 and the factors 0.5, 1.0 and 1.1 |
| Settings.DefaultHeuristicSettings | core/verify.py:65-69 | with no file, the base score is 60 (not the inline 45) and the bonus scales are 6 and 5 |
| Settings.DefaultNliSettings | core/verify.py:111 | with no file, kw_min is 2, the NLI cap 30, the support scale 80 and the contradiction penalty 50 |
| Settings.DefaultGateSettings | core/verify.py:207-211 | with no file, neutral_as is 0, min_conf 0.2, min_importance 0.4, alpha 0.75 and the excerpt threshold 0.65 |
| Settings.NoFileSettings | core/verify.py:95 | without a configuration file the run's settings are exactly the defaults listed above |
| Settings.BaseScoreNeverFallsBack | core/verify.py:65 | BASE_SCORE is always present in the loaded configuration, so its inline fallback 45 is never used |
| Utils.StripIsStripped | core/utils.py:8 | `strip()` leaves no whitespace at either end |
| Utils.StrippedIsFixed | core/utils.py:12 | stripping a string without outer whitespace changes nothing |
| Utils.JoinAppend | core/utils.py:12 | joining two non-empty lists puts one space between their joins |
| Utils.JoinStripped | core/utils.py:12 | joining stripped, non-empty sentences gives a non-empty string without outer whitespace |
| Utils.Sentences | core/utils.py:7-10 | the stripped non-empty sentences are all non-empty and stripped |
| Utils.ChunkedSpec | core/utils.py:4-19 | each chunk is a group of consecutive sentences joined by spaces; the groups use every non-empty sentence once, in order; a chunk of two or more sentences is at most `max_chars + 1` long; an over-long sentence is a chunk of its own; the chunks joined give the sentences joined; no chunks iff no sentences |
| Utils.NoSentences | core/utils.py:9-10 | sentences that are blank once stripped are all skipped |
| Utils.ChunksNonEmpty | core/utils.py:14-18 | no chunk is empty, and blank text gives no chunk |
| Utils.SplitToChunks | core/utils.py:4-19 | the loop over the sentences builds exactly `Chunked` |
| Utils.LowerChar | core/utils.py:22 | lower-casing leaves no upper-case letter and keeps other characters |
| Utils.Lower | core/utils.py:22 | `lower()` restricted to ASCII letters: it maps each character and keeps the length |
| Utils.TokensFromSpec | core/utils.py:23 | tokens are non-empty runs of letters that together are exactly the text's letters, in order; a lower-case text gives lower-case tokens |
| Utils.KeepWords | core/utils.py:25 | a token is kept iff it is not a stop word and is longer than one letter |
| Utils.CountPositive | core/utils.py:26 | a word has a positive count iff it occurs |
| Utils.Distinct | core/utils.py:26 | a `Counter`'s keys are the distinct words, each once |
| Utils.DistinctFirstOccurrence | core/utils.py:26 | a `Counter`'s keys come in the order the words first occur |
| Utils.MostCommonSpec | core/utils.py:27 | `most_common()` lists each distinct word once, most frequent first, ties in first-occurrence order |
| Utils.KeywordsWellFormed | core/utils.py:21-27 | at most ten keywords, pairwise distinct, each a claim word that is lower-case, longer than one letter and not a stop word |
| Utils.KeywordsByFrequency | core/utils.py:26-27 | keywords come most frequent first, and ties in claim order |
| Utils.KeywordsMostCommon | core/utils.py:27 | a claim word left out is no more frequent than any keyword, and is left out only when all ten places are taken |
| Utils.MostCommonBeats | core/utils.py:27 | a word outside `most_common(10)` is no more frequent than any word in it |
| Utils.IsSubstringAt | core/utils.py:33 | Python's `kw in c` holds iff `kw` occurs at some position of `c` |
| Utils.KeywordScoreSpec | core/utils.py:29-35 | the score lies between 0 and the number of keywords; it is 0 iff no keyword occurs in the lower-cased chunk, and it is maximal iff every keyword occurs |
| Utils.ScoreChunkByKeywords | core/utils.py:29-35 | the counting loop returns exactly `KeywordScore` |
| Utils.Scored | core/utils.py:40 | each chunk is paired with its keyword score, in page order |
| Utils.PositiveOfSorted | core/utils.py:42 | filtering keeps exactly the positive pairs, in order |
| Utils.RankedSpec | core/utils.py:41 | the stable descending sort keeps every scored chunk, in non-increasing score order |
| Utils.SomePositive | core/utils.py:42-43 | the filtered list is non-empty iff some chunk contains a keyword |
| Utils.SelectTopIsRankedPrefix | core/utils.py:42-43 | when some chunk scores above 0, the result is a prefix of the positive chunks in ranked order |
| Utils.SelectTopFallback | core/utils.py:43 | when no chunk contains a keyword, the result is the first `top_n` chunks |
| Utils.SelectTopBounds | core/utils.py:43 | at most `top_n` chunks, each one of the page's chunks |
| Utils.SelectTopRanked | core/utils.py:41-43 | when some chunk scores above 0, every chunk returned scores above 0 and scores do not increase |
| Utils.SelectTopBeatsRest | core/utils.py:41-43 | a chunk left out scores no more than any chunk returned; a positive one is left out only when all `top_n` places are taken |
| Utils.SelectTopTies | core/utils.py:41 | returned chunks of equal score keep their page order (the sort is stable) |
| Search.MakeHit | core/search.py:36-47 | a numbered result keeps its rank and link, and its domain is that of its link |
| Search.Numbered | core/search.py:36-47 | the first `2k` organic items, numbered from 1 in order |
| Search.NumberResults | core/search.py:36-47 | the numbering loop returns exactly `Numbered` |
| Search.FirstWithDomain | core/search.py:49-53 | the position of the first result with a given domain |
| Search.FirstPerDomainCovers | core/search.py:49-53 | every kept domain is non-empty, and every non-empty domain is kept |
| Search.KeptIsFirst | core/search.py:49-53 | each kept result is the first result of its domain |
| Search.KeptInOrder | core/search.py:55 | kept results keep their input order |
| Search.UniqueByDomain | core/search.py:49-55 | the deduplication loop returns exactly `FirstPerDomain` |
| Search.DedupedInRankOrder | core/search.py:55-56 | the deduplicated list is already strictly ascending by rank, so the sort is the identity |
| Search.SearchResultsShape | core/search.py:33-57 | at most `k` results, strictly ascending by rank, each the numbered organic item at its rank within the first `2k` |
| Search.SearchResultItem | core/search.py:36-57 | a returned result is the numbered result of the organic item at its rank |
| Search.SearchResultsOnePerDomain | core/search.py:49-57 | an empty domain is dropped; one result per domain, the first one; with fewer than `k` results every non-empty domain appears |
| Search.SearchSerper | core/search.py:33-57 | the search post-processing computes exactly `SearchResults` |
| Heuristic.FirstSuffix | core/verify.py:28-30 | the first suffix that the domain ends with, scanning in order |
| Heuristic.Contains | core/verify.py:26 | `domain in dmap` is key membership for an object, element membership for a list and a substring test for a string, and it raises exactly on null, booleans and numbers |
| Heuristic.DomainWeight | core/verify.py:22-31 | an empty domain weighs 1.0; weights on which the `in` test raises fail; a list or string of weights that contains the domain fails at `dmap[domain]` |
| Heuristic.ExactWeightWins | core/verify.py:26-27 | an exact entry for the domain wins over every suffix |
| Heuristic.FirstSuffixWins | core/verify.py:26-30 | when the domain is not in the weights (an object, list or string), the first matching suffix in file order wins, whatever other suffixes match |
| Heuristic.NoMatchWeighsOne | core/verify.py:26-31 | when the domain is not in the weights and no suffix matches, the weight is 1.0 (for example with `DOMAIN_WEIGHTS` set to `[]`) |
| Heuristic.SuffixesNotAnObject | core/verify.py:28 | suffixes that are not an object make `.items()` raise for a domain not in the weights |
| Heuristic.Index | core/verify.py:42 | `item[i]` is an element of a list or a one-character string of a string, and raises on every other value and out of range |
| Heuristic.Iterated | core/verify.py:40 | `for item in buckets` visits a list's elements, an object's keys or a string's characters; it raises exactly on null, booleans and numbers; it visits nothing iff the value is falsy |
| Heuristic.FirstFit | core/verify.py:40-46 | the first well-formed recency bucket the age fits |
| Heuristic.FallbackWeight | core/verify.py:47-48 | falsy buckets weigh 1.0; a list takes its last bucket's weight; a non-empty object or string raises |
| Heuristic.RecencyWeight | core/verify.py:33-48 | an undated page weighs 1.0; a dated page fails when the buckets cannot be iterated |
| Heuristic.FirstFittingBucket | core/verify.py:40-46 | a dated page takes the weight of the first well-formed visited bucket whose limit its age does not exceed; malformed buckets are skipped |
| Heuristic.NoFittingBucket | core/verify.py:40-48 | a page older than every bucket weighs 1.0 when the buckets are falsy; otherwise a list gives the last bucket's weight, which fails if that bucket is malformed, and an object or string fails |
| Heuristic.EmptyBucketsWeighOne | core/verify.py:40-48 | buckets set to `[]`, `{}` or `""` give every dated page the weight 1.0 |
| Heuristic.StringBucket | core/verify.py:40-48 | the string bucket `"95"` reads as limit 9 and weight 5.0, and as a last bucket it weighs 5.0 |
| Heuristic.FirstFitMonotone | core/verify.py:40-46 | an older page never lands in an earlier bucket |
| Heuristic.AgeDaysMonotone | core/verify.py:39 | an earlier publication time means at least as many elapsed days |
| Heuristic.DefaultRecency | core/verify.py:40-46 | with the default buckets, pages at most 90 days old weigh 1.15 and those over 3650 days weigh 0.95 |
| Heuristic.CoverageFactor | core/verify.py:50-60 | the bucket is low below the low threshold, mid up to the high threshold and high above it; each bucket has its own factor |
| Heuristic.CoverageMonotone | core/verify.py:56-60 | more distinct domains never lower the bucket, nor the factor when the factors ascend |
| Heuristic.ItemBonus | core/verify.py:75-79 | one item's bonus succeeds iff both of its weights convert |
| Heuristic.Clamp | core/verify.py:84 | the clamp lies in [0, 100] and leaves values already in range unchanged |
| Heuristic.HeuristicScore | core/verify.py:62-87 | the score lies in [0, 100]; it is computed iff every item's weights convert |
| Heuristic.HeuristicScoreOf | core/verify.py:63-87 | once the bonus is known, the result is the clamped scaled base plus the bonus, with the coverage factor and bucket |
| Heuristic.BonusAppend | core/verify.py:75-79 | the bonus of a concatenation is the sum of the two bonuses, and it fails iff either part fails |
| Heuristic.BonusSnoc | core/verify.py:75-79 | one more item adds its own bonus |
| Heuristic.NeutralEvidenceAddsNothing | core/verify.py:78-79 | evidence whose weights are all 1.0 adds no bonus |
| Heuristic.NeutralEvidenceScoresBase | core/verify.py:64-84 | such evidence scores the clamped, coverage-scaled base alone |
| Heuristic.BonusFailsFrom | core/verify.py:75-79 | one item whose weight fails to convert makes the whole score fail |
| Heuristic.ComputeDomainWeight | core/verify.py:22-31 | the exact lookup followed by the suffix loop that returns at the first match returns exactly `DomainWeight` |
| Heuristic.ComputeRecencyWeight | core/verify.py:33-48 | the bucket loop that skips malformed buckets and returns at the first fitting one, followed by the fallback, returns exactly `RecencyWeight` |
| Heuristic.ComputeHeuristic | core/verify.py:62-87 | the accumulating loop returns exactly `HeuristicScore` |
| Aggregate.Put | core/verify.py:189 | `d[k] = v` keeps the table well formed; a new key goes to the end, an existing key keeps its place |
| Aggregate.Gather | core/verify.py:116-131 | one evidence record per page that loaded |
| Aggregate.OkPagesAppend | core/verify.py:116-119 | pages contribute independently, in fetch order |
| Aggregate.OkPagesSkip | core/verify.py:118-119 | a page that failed to load is skipped |
| Aggregate.FailedPageIgnored | core/verify.py:118-119 | a page that failed to load contributes no evidence, wherever it sits |
| Aggregate.GatherSnoc | core/verify.py:116-131 | one more page appends its record iff it loaded |
| Aggregate.OkPagesSpec | core/verify.py:116-119 | exactly the pages that loaded are kept |
| Aggregate.GatherFromOkPages | core/verify.py:121-131 | each record is built from a page that loaded |
| Aggregate.ChunkCandidates | core/verify.py:134-141 | a page queues at most as many chunks as it has |
| Aggregate.ChunkCandidatesSpec | core/verify.py:134-141 | a chunk is queued iff its keyword score reaches `kw_min`; it keeps its page's URL and domain |
| Aggregate.CandidatesSnoc | core/verify.py:116-141 | one more page queues its matching chunks after the earlier ones |
| Aggregate.CandidatesAppend | core/verify.py:116-141 | the queue is formed page after page |
| Aggregate.CandidatesFromEvidence | core/verify.py:134-141 | each queued chunk is a chunk of some evidence record, passed the gate, and carries that record's URL |
| Aggregate.Cap | core/verify.py:148-153 | the queue is cut to its first `max_total` chunks when it is longer |
| Aggregate.AggregateKeys | core/verify.py:155-170 | one entry per queued URL, each evaluated, under its own URL, with the first chunk's domain |
| Aggregate.AggregateDomain | core/verify.py:161-170 | the entry's domain comes from the first queued chunk of its URL |
| Aggregate.AbsorbSide | core/verify.py:172-180 | one NLI result raises the maximum, and moves the best chunk only on a strict increase |
| Aggregate.PeakIsUpperBound | core/verify.py:164-178 | a source's maximum starts at 0 and bounds every probability its chunks received |
| Aggregate.PeakIsAttained | core/verify.py:164-178 | a source's maximum is 0 or a probability one of its chunks received |
| Aggregate.BestIsFirstPeak | core/verify.py:172-178 | the best chunk is the earliest chunk that reached the maximum |
| Aggregate.NoPeakNoBest | core/verify.py:168-178 | with no positive probability the best chunk stays empty |
| Aggregate.NeutralIsMaximum | core/verify.py:166-180 | the neutral field is the largest neutral probability, starting from 0 |
| Aggregate.AddFrom | core/verify.py:187-199 | adding the unevaluated evidence keeps the table well formed |
| Aggregate.AddFromKeys | core/verify.py:186-199 | afterwards every evidence URL and every URL evaluated earlier has an entry, and no other URL does |
| Aggregate.AddFromKeepsEvaluated | core/verify.py:186-188 | evaluated entries are untouched |
| Aggregate.AddFromAdded | core/verify.py:189-199 | each added entry is the unevaluated entry of an evidence record with that URL |
| Aggregate.AddFromKeepsOrder | core/verify.py:189 | evaluated entries keep their places at the front |
| Aggregate.EvaluatedIffQueued | core/verify.py:167-197 | an entry is evaluated iff some queued chunk came from its URL |
| Aggregate.Gate | core/verify.py:215-248 | an entry is included iff it is evaluated, one side reaches min_conf and the two maxima sum to at least min_importance; an included entry records its component; nothing else changes |
| Aggregate.GateAll | core/verify.py:215-248 | gating every entry keeps the keys and gates each entry |
| Aggregate.GateAllKeepsDomains | core/verify.py:215-248 | gating changes no entry's domain |
| Aggregate.IncludedValuesSnoc | core/verify.py:246-248 | one more key appends its component iff its entry is included |
| Aggregate.IncludedValuesSpec | core/verify.py:213-248 | the values are exactly the components of the included entries |
| Aggregate.WorkedExample | core/verify.py:222-248 | entailment 0.9 and contradiction 0.1 pass the default gates and contribute 80 * 0.9 - 50 * 0.1 = 67 |
| Aggregate.DefaultGatesExclude | core/verify.py:218-239 | under the defaults, an unevaluated source, one with no side at 0.2, and one whose sides sum below 0.4 are all excluded |
| Aggregate.ComponentRange | core/verify.py:242-244 | with probabilities in [0, 1] and no neutral term, a component lies in [-penalty, support] |
| Aggregate.NliScore | core/verify.py:256-260 | the NLI score lies in [0, 100], and is 0 without included sources |
| Aggregate.SumBounds | core/verify.py:258 | a sum of values in [lo, hi] lies between n * lo and n * hi |
| Aggregate.MeanNeedsNoClamp | core/verify.py:258 | components already in [0, 100] give their plain mean |
| Aggregate.Blend | core/verify.py:263-265 | the final score lies in [0, 100] |
| Aggregate.BlendBetween | core/verify.py:264-265 | with alpha in [0, 1] the blend needs no clamp and lies between the two scores |
| Aggregate.Excerpt | core/verify.py:287-288 | a best chunk is shown iff its maximum reaches the excerpt threshold |
| Aggregate.DomainBonus | core/verify.py:299 | an unlisted domain's bonus is 1.0, a listed one's is its converted value, and a non-mapping `BONUS_DOMAINS` fails |
| Aggregate.IncludedEvidence | core/verify.py:280-285 | only evidence whose entry is included, in evidence order |
| Aggregate.EnrichFailsFrom | core/verify.py:279-300 | one bonus that fails to convert makes the whole list fail |
| Aggregate.EnrichSucceeds | core/verify.py:279-300 | enrichment succeeds iff every included source's domain bonus converts |
| Aggregate.EnrichGatedSucceeds | core/verify.py:279-300 | the same over the gated table, stated with the domains from before gating |
| Aggregate.EnrichContents | core/verify.py:280-300 | the enriched list is the included evidence, in order, each with its entry's maxima, gated excerpts, component and bonus |
| Aggregate.AheadIsStrictTotalOrder | core/verify.py:305-311 | the descending (bonus, component) comparison is a strict total order on keys |
| Aggregate.TopSourcesSpec | core/verify.py:302-314 | at most five sources, all from the enriched list, in non-increasing (bonus, component) order; none left out ranks ahead of one shown |
| Aggregate.TopSourcesStable | core/verify.py:305-311 | shown sources with equal keys keep their enriched order |
| Pipeline.Fetched | core/verify.py:116-117 | one fetch per picked result, in order |
| Pipeline.PerSourceCovers | core/verify.py:155-201 | `per_source` is well formed and its keys are exactly the evidence URLs |
| Pipeline.QueuedFromEvidence | core/verify.py:155-170 | every URL the NLI stage saw belongs to some evidence record |
| Pipeline.PerSourceEntries | core/verify.py:185-201 | every entry's key is listed, and every evidence URL has an entry |
| Pipeline.PageEvidence | core/verify.py:121-130 | the record for a page that loaded: its metadata and its top chunks |
| Pipeline.GateChunks | core/verify.py:134-141 | the keyword-gate loop over one page queues exactly `ChunkCandidates` |
| Pipeline.CollectEvidence | core/verify.py:116-141 | the fetch loop builds exactly `Gather` and the queue exactly `Candidates` |
| Pipeline.AbsorbScores | core/verify.py:172-180 | one NLI result is folded in exactly as `Absorb` |
| Pipeline.RunNli | core/verify.py:156-180 | the NLI loop builds exactly the `Aggregate` table |
| Pipeline.AddUnevaluatedSources | core/verify.py:186-199 | the loop adds exactly the `AddUnevaluated` entries |
| Pipeline.GateEntry | core/verify.py:216-248 | one pass of the gate loop body computes `Gate` |
| Pipeline.GateLoop | core/verify.py:215-248 | the gate loop keeps the key set |
| Pipeline.GateIdempotent | core/verify.py:216-248 | gating twice is gating once |
| Pipeline.GateLoopEntries | core/verify.py:215-248 | after the loop, a listed key's entry is `Gate` of its original; other entries are untouched |
| Pipeline.GateLoopValues | core/verify.py:213-248 | the loop collects the components of the included gated entries, in key order |
| Pipeline.ApplyGates | core/verify.py:213-248 | the gate loop produces exactly `GateAll` and the matching `nli_vals` |
| Pipeline.EnrichSources | core/verify.py:279-300 | the enrichment loop computes exactly `Enrich` |
| Pipeline.ConcludeRun | core/verify.py:206-326 | steps 8 to 12 compute exactly `Conclude` |
| Pipeline.PerSourceTable | core/verify.py:148-201 | steps 4 to 6 compute exactly `PerSource` |
| Pipeline.RunStages | core/verify.py:106-326 | steps 2 to 12 compute exactly `Run` |
| Pipeline.VerifyClaimPipeline | core/verify.py:89-326 | the whole run computes exactly `Pipeline` |
| Pipeline.ConcludeSources | core/verify.py:279-326 | the report carries the claim, the note, the distinct-domain count and the coverage bucket; the score is in [0, 100]; at most five sources; each is included evidence with its entry's maxima, gated excerpts and component |
| Pipeline.ConcludeOrder | core/verify.py:302-314 | shown sources come by non-increasing (bonus, component); no enriched source left out ranks ahead |
| Pipeline.ConcludeSucceeds | core/verify.py:279-300 | steps 8 to 12 fail iff some included source's domain bonus does not convert |
| Pipeline.ConcludeScore | core/verify.py:256-265 | with alpha in [0, 1], the score is the weighted mean of the heuristic and NLI scores, so it lies between them |
| Pipeline.EvidenceFromPicked | core/verify.py:101-131 | every evidence record comes from a picked search result whose page loaded |
| Pipeline.PipelineReport | core/verify.py:89-326 | a successful run reports the claim, a score in [0, 100] and at most five sources, each included evidence of a picked result whose page loaded |
| Pipeline.NothingLoads | core/verify.py:116-119 | when no page loads there is no evidence |
| Pipeline.ConcludeWithoutEvidence | core/verify.py:156-326 | without evidence, the table is empty, the NLI score is 0 and no source is shown |
| Pipeline.NoPageLoads | core/verify.py:89-326 | with no configuration file and no page loading, the report scores 60 * 0.5 * 0.25 = 7.5 with bucket low and no sources |

## Left out

- The HTTP call to Serper, the API key check and the search errors it raises (missing key, network error, non-200 status). The response's organic items are an input.
- Search.Organic, Search.MakeHit: an organic item's field is either a string or missing. A field that is present but holds null or a non-string value is not represented. For such a `title`, `snippet` or `source`, Python's `item.get(...)` returns that value, not the `""` or `_domain_of(link)` fallback the model gives; only displayed fields of the hit differ, and ranking, deduplication and the score do not. A truthy non-string `link` would be kept by `link or ""` and handed to `_domain_of`; the model's links are always strings.
- The `data.get("organic", []) or []` defaulting. The organic list is given directly.
- `_domain_of` (URL parsing). The model takes the host extraction as a function.
- `fetch_page` (core/scrape.py) and `nli_support_contradict` (core/nli.py) are not part of this model. They are parameters. The NLI probabilities are assumed to lie in [0, 1].
- `_parse_date` and `datetime.now`. A publication date arrives parsed, as whole seconds, and the current time is a parameter.
- The regular-expression sentence split in `split_to_chunks`. Page text arrives as a list of sentences.
- Utils.LowerChar, Utils.Lower: only ASCII upper-case letters are lower-cased. Hebrew has no case, and other non-ASCII letters are outside the token class before and after `lower()`. Two exceptions are not modelled. U+212A KELVIN SIGN lower-cases to the ASCII `k`. U+0130 (capital I with dot above) lower-cases to two characters, `i` and U+0307. Either one can change a claim's tokens or a keyword match. The second also changes the string's length, which Python's `lower()` may therefore not keep.
- `round(...)` of the score and the maxima in the report. These values stay unrounded reals.
- The `DEBUG_NUMERIC_ONLY` prints.
- Floating point. Scores are exact reals.
- Settings.AsReal, Settings.AsInt: only strings of ASCII digits are read as numbers. Other numeric strings that Python's `float`/`int` accept are treated as unconvertible: signs, surrounding whitespace, underscores, decimal points, exponents, `inf`/`nan` and non-ASCII digits. Lists, objects and null fail, as in Python.
- Config.PairOf: a pair from a list whose key is null, a boolean or a number is stored by Python under a non-string key. The model drops it, since no setting is read under such a key.
- Settings.FromConfig: every scalar setting is resolved before the run. In the source, a bad scalar setting raises at its own `cfg.get` after earlier work. The outcome is the same, an exception and no report.
- Settings.ConfigError: every conversion failure is one error value. The exception types are not distinguished.
- Aggregate.IncludedValues: it is total on keys without an entry, which never occur, since `Pipeline.PerSourceEntries` shows every entry is keyed.
- The web UI (app/) and the test script test_serper.py.
- The response schema in app/schemas.py:48 expects `score_heuristic`, while the pipeline returns `score` (core/verify.py:318). That mismatch belongs to the UI layer and is not modelled.
