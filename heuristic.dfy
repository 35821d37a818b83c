/**
 * The heuristic half of the score (core/verify.py, `_domain_weight`,
 * `_recency_weight`, `_coverage_bucket_factor`, `_heuristic_score`): a base
 * score scaled by how many distinct domains the evidence covers, plus a
 * bonus per evidence item for a favoured domain and a recent date.
 *
 * Dates arrive already parsed, as whole seconds on one naive clock (`None`
 * when the page gave none or it did not parse); the current time is a
 * parameter. Settings that the source converts only on use are converted
 * here, so each weight is a `Result` that fails where `float(...)` raises.
 */
module Heuristic {
  import opened Wrappers
  import opened Config
  import opened Settings
  import Utils

  /** One fetched page kept as evidence. */
  datatype Evidence = Evidence(
    url: string, domain: string, title: string,
    publishedAt: Option<int>, language: string, chunks: seq<string>)

  datatype Coverage = Low | Mid | High

  /** `s.endswith(suffix)`; every string ends with the empty suffix. */
  predicate EndsWith(s: string, suffix: string) {
    |suffix| <= |s| && s[|s| - |suffix|..] == suffix
  }

  /** The index of the first item whose key `domain` ends with, or `|items|`. */
  function FirstSuffix(domain: string, items: seq<(string, Json)>): (i: nat)
    ensures i <= |items|
    ensures i < |items| ==> EndsWith(domain, items[i].0)
    ensures forall j :: 0 <= j < i ==> !EndsWith(domain, items[j].0)
  {
    if items == [] then 0
    else if EndsWith(domain, items[0].0) then 0
    else 1 + FirstSuffix(domain, items[1..])
  }

  /** The weight of the first matching suffix, or 1.0 when no suffix matches. */
  function SuffixWeight(domain: string, suffixes: Json): Result<real, ConfigError> {
    if !suffixes.JObj? then Failure(BadValue)
    else
      var items := PyDict(suffixes.entries);
      var i := FirstSuffix(domain, items);
      if i < |items| then AsReal(items[i].1) else Success(1.0)
  }

  /**
   * `domain in dmap`: a key of an object, an element of a list, a substring
   * of a string; on `null`, a boolean or a number the test raises.
   */
  function Contains(dmap: Json, domain: string): (r: Result<bool, ConfigError>)
    ensures dmap.JObj? ==> r == Success(domain in ObjMap(dmap.entries))
    ensures dmap.JArr? ==> r == Success(JStr(domain) in dmap.items)
    ensures dmap.JStr? ==> r == Success(Utils.IsSubstring(domain, dmap.s))
    ensures r.Failure? <==> dmap.JNull? || dmap.JBool? || dmap.JNum?
  {
    match dmap
    case JObj(entries) => Success(domain in ObjMap(entries))
    case JArr(items) => Success(JStr(domain) in items)
    case JStr(t) => Success(Utils.IsSubstring(domain, t))
    case _ => Failure(BadValue)
  }

  /**
   * `_domain_weight`. Only an object can be indexed by the domain: a list
   * or string that contains it raises at `dmap[domain]`, while one that
   * does not falls through to the suffixes.
   */
  function DomainWeight(domain: string, s: Settings): (r: Result<real, ConfigError>)
    ensures domain == [] ==> r == Success(1.0)
    ensures domain != [] && Contains(s.domainWeights, domain).Failure? ==> r.Failure?
    ensures domain != [] && !s.domainWeights.JObj? && Contains(s.domainWeights, domain) == Success(true) ==>
      r.Failure?
  {
    if domain == [] then Success(1.0)
    else
      match Contains(s.domainWeights, domain)
      case Failure(e) => Failure(e)
      case Success(false) => SuffixWeight(domain, s.suffixDefaults)
      case Success(true) =>
        if s.domainWeights.JObj? then AsReal(ObjMap(s.domainWeights.entries)[domain]) else Failure(BadValue)
  }

  /** An exact entry for the domain wins over every suffix, matching or not. */
  lemma ExactWeightWins(domain: string, s: Settings)
    requires domain != [] && s.domainWeights.JObj?
    requires domain in ObjMap(s.domainWeights.entries)
    ensures DomainWeight(domain, s) == AsReal(ObjMap(s.domainWeights.entries)[domain])
  {
  }

  /**
   * Without the domain among the weights, whether they are an object, a
   * list or a string, the weight is that of the first suffix the domain
   * ends with, in the order the suffixes were written, however many later
   * suffixes also match.
   */
  lemma {:induction false} FirstSuffixWins(domain: string, s: Settings, i: nat)
    requires domain != [] && s.suffixDefaults.JObj?
    requires Contains(s.domainWeights, domain) == Success(false)
    requires i < |PyDict(s.suffixDefaults.entries)|
    requires EndsWith(domain, PyDict(s.suffixDefaults.entries)[i].0)
    requires forall j :: 0 <= j < i ==> !EndsWith(domain, PyDict(s.suffixDefaults.entries)[j].0)
    ensures DomainWeight(domain, s) == AsReal(PyDict(s.suffixDefaults.entries)[i].1)
  {
    var items := PyDict(s.suffixDefaults.entries);
    assert FirstSuffix(domain, items) == i;
  }

  /** A domain with neither an entry among the weights nor a matching suffix weighs 1.0. */
  lemma NoMatchWeighsOne(domain: string, s: Settings)
    requires domain != [] && s.suffixDefaults.JObj?
    requires Contains(s.domainWeights, domain) == Success(false)
    requires forall j :: 0 <= j < |PyDict(s.suffixDefaults.entries)| ==>
      !EndsWith(domain, PyDict(s.suffixDefaults.entries)[j].0)
    ensures DomainWeight(domain, s) == Success(1.0)
  {
    var items := PyDict(s.suffixDefaults.entries);
    assert FirstSuffix(domain, items) == |items|;
  }

  /** Suffixes that are not an object make every non-empty domain without an entry fail (`.items()` raises). */
  lemma SuffixesNotAnObject(domain: string, s: Settings)
    requires domain != [] && !s.suffixDefaults.JObj?
    requires Contains(s.domainWeights, domain) == Success(false)
    ensures DomainWeight(domain, s).Failure?
  {
  }

  /** `item[i]`: an element of a list or a one-character string of a string; `None` where Python raises. */
  function Index(item: Json, i: nat): (r: Option<Json>)
    ensures item.JArr? ==> (r.Some? <==> i < |item.items|)
    ensures item.JStr? ==> (r.Some? <==> i < |item.s|)
    ensures r.Some? && item.JStr? ==> r.value == JStr([item.s[i]])
    ensures !(item.JArr? || item.JStr?) ==> r.None?
  {
    match item
    case JArr(xs) => if i < |xs| then Some(xs[i]) else None
    case JStr(t) => if i < |t| then Some(JStr([t[i]])) else None
    case _ => None
  }

  /** A recency bucket, `(int(item[0]), float(item[1]))`, or `None` when that raises. */
  function ParseBucket(item: Json): Option<(int, real)> {
    match (Index(item, 0), Index(item, 1))
    case (Some(a), Some(b)) => (
      match (AsInt(a), AsReal(b))
      case (Success(limit), Success(w)) => Some((limit, w))
      case _ => None)
    case _ => None
  }

  /** A bucket that is well formed and whose limit `days` does not exceed. */
  predicate Fits(item: Json, days: int) {
    ParseBucket(item).Some? && days <= ParseBucket(item).value.0
  }

  /** The index of the first bucket the age fits, or `|buckets|`. */
  function FirstFit(buckets: seq<Json>, days: int): (i: nat)
    ensures i <= |buckets|
    ensures i < |buckets| ==> Fits(buckets[i], days)
    ensures forall j :: 0 <= j < i ==> !Fits(buckets[j], days)
  {
    if buckets == [] then 0
    else if Fits(buckets[0], days) then 0
    else 1 + FirstFit(buckets[1..], days)
  }

  /**
   * What `for item in buckets` visits: a list's elements, an object's keys
   * and a string's characters, in order; `None` where iteration raises.
   */
  function Iterated(buckets: Json): (r: Option<seq<Json>>)
    ensures r.None? <==> buckets.JNull? || buckets.JBool? || buckets.JNum?
    ensures buckets.JArr? ==> r == Some(buckets.items)
    ensures r.Some? ==> (r.value == [] <==> Falsy(buckets))
  {
    match buckets
    case JArr(xs) => Some(xs)
    case JObj(entries) =>
      var d := PyDict(entries);
      PyDictNonEmpty(entries);
      Some(seq(|d|, i requires 0 <= i < |d| => JStr(d[i].0)))
    case JStr(t) => Some(seq(|t|, i requires 0 <= i < |t| => JStr([t[i]])))
    case _ => None
  }

  /** `float(buckets[-1][1])`, which raises unless the item's second element converts. */
  function LastWeight(item: Json): Result<real, ConfigError> {
    match Index(item, 1)
    case Some(b) => AsReal(b)
    case None => Failure(BadValue)
  }

  /**
   * `float(buckets[-1][1]) if buckets else 1.0`. A non-empty object raises
   * (no key `-1`), and so does a non-empty string (its last character has
   * no second one).
   */
  function FallbackWeight(buckets: Json): (r: Result<real, ConfigError>)
    ensures Falsy(buckets) ==> r == Success(1.0)
    ensures !Falsy(buckets) && buckets.JArr? ==> r == LastWeight(buckets.items[|buckets.items| - 1])
    ensures !Falsy(buckets) && !buckets.JArr? ==> r.Failure?
  {
    if Falsy(buckets) then Success(1.0)
    else
      match buckets
      case JArr(xs) => LastWeight(xs[|xs| - 1])
      case _ => Failure(BadValue)
  }

  /** `(now - published).days`: whole days elapsed, rounded down. */
  function AgeDays(now: int, published: int): int {
    (now - published) / 86400
  }

  /** `_recency_weight` for a parsed publication time. */
  function RecencyWeight(published: Option<int>, now: int, s: Settings): (r: Result<real, ConfigError>)
    ensures published.None? ==> r == Success(1.0)
    ensures published.Some? && Iterated(s.recencyBuckets).None? ==> r.Failure?
  {
    if published.None? then Success(1.0)
    else
      match Iterated(s.recencyBuckets)
      case None => Failure(BadValue)
      case Some(buckets) =>
        var i := FirstFit(buckets, AgeDays(now, published.value));
        if i < |buckets| then Success(ParseBucket(buckets[i]).value.1)
        else FallbackWeight(s.recencyBuckets)
  }

  /**
   * A dated page takes the weight of the first well-formed bucket whose
   * limit its age does not exceed; malformed buckets before it are skipped.
   */
  lemma {:induction false} FirstFittingBucket(published: int, now: int, s: Settings, buckets: seq<Json>, i: nat)
    requires Iterated(s.recencyBuckets) == Some(buckets) && i < |buckets|
    requires Fits(buckets[i], AgeDays(now, published))
    requires forall j :: 0 <= j < i ==> !Fits(buckets[j], AgeDays(now, published))
    ensures RecencyWeight(Some(published), now, s) == Success(ParseBucket(buckets[i]).value.1)
  {
    assert FirstFit(buckets, AgeDays(now, published)) == i;
  }

  /**
   * A dated page older than every bucket takes 1.0 when the buckets are
   * empty, and otherwise the last bucket's weight, which fails when that
   * bucket is malformed or the buckets are an object or a string.
   */
  lemma NoFittingBucket(published: int, now: int, s: Settings, buckets: seq<Json>)
    requires Iterated(s.recencyBuckets) == Some(buckets)
    requires forall j :: 0 <= j < |buckets| ==> !Fits(buckets[j], AgeDays(now, published))
    ensures Falsy(s.recencyBuckets) ==> RecencyWeight(Some(published), now, s) == Success(1.0)
    ensures !Falsy(s.recencyBuckets) && s.recencyBuckets.JArr? ==>
      RecencyWeight(Some(published), now, s) == LastWeight(buckets[|buckets| - 1])
    ensures !Falsy(s.recencyBuckets) && !s.recencyBuckets.JArr? ==> RecencyWeight(Some(published), now, s).Failure?
  {
    assert FirstFit(buckets, AgeDays(now, published)) == |buckets|;
  }

  /** Empty buckets, whether `[]`, `{}` or `""`, give every dated page the weight 1.0. */
  lemma EmptyBucketsWeighOne(published: int, now: int, s: Settings)
    requires s.recencyBuckets in {JArr([]), JObj([]), JStr([])}
    ensures RecencyWeight(Some(published), now, s) == Success(1.0)
  {
    assert Iterated(s.recencyBuckets) == Some([]);
  }

  /** A string bucket is read character by character: `"95"` is a limit of 9 days with weight 5.0. */
  lemma StringBucket()
    ensures ParseBucket(JStr("95")) == Some((9, 5.0))
    ensures LastWeight(JStr("95")) == Success(5.0)
  {
    assert Index(JStr("95"), 0) == Some(JStr("9"));
    assert Index(JStr("95"), 1) == Some(JStr("5"));
    assert DigitsValue("9") == 9;
    assert DigitsValue("5") == 5;
  }

  /** An older page never lands in an earlier bucket than a newer one. */
  lemma {:induction false} FirstFitMonotone(buckets: seq<Json>, younger: int, older: int)
    requires younger <= older
    ensures FirstFit(buckets, younger) <= FirstFit(buckets, older)
  {
    if buckets != [] && !Fits(buckets[0], younger) {
      assert !Fits(buckets[0], older);
      FirstFitMonotone(buckets[1..], younger, older);
    }
  }

  /** An earlier publication time means at least as many elapsed days. */
  lemma AgeDaysMonotone(now: int, earlier: int, later: int)
    requires earlier <= later
    ensures AgeDays(now, later) <= AgeDays(now, earlier)
  {
  }

  /** With the compiled-in buckets, pages at most 90 days old weigh 1.15 and those over 3650 days weigh 0.95. */
  lemma DefaultRecency(published: int, now: int)
    ensures AgeDays(now, published) <= 90 ==>
      RecencyWeight(Some(published), now, DefaultSettings()) == Success(1.15)
    ensures AgeDays(now, published) > 3650 ==>
      RecencyWeight(Some(published), now, DefaultSettings()) == Success(0.95)
  {
    var buckets := DefaultSettings().recencyBuckets.items;
    assert Iterated(DefaultSettings().recencyBuckets) == Some(buckets);
    assert ParseBucket(buckets[0]) == Some((90, 1.15));
    assert ParseBucket(buckets[1]) == Some((365, 1.10));
    assert ParseBucket(buckets[2]) == Some((1095, 1.00));
    assert ParseBucket(buckets[3]) == Some((3650, 0.95));
  }

  /** `_coverage_bucket_factor`: the factor and bucket for a count of distinct domains. */
  function CoverageFactor(domains: int, s: Settings): (r: (real, Coverage))
    ensures r.1 == Low <==> domains < s.lowThreshold
    ensures r.1 == Mid <==> s.lowThreshold <= domains <= s.highThreshold
    ensures r.1 == High <==> s.lowThreshold <= domains && s.highThreshold < domains
    ensures r.0 == match r.1 case Low => s.lowFactor case Mid => s.midFactor case High => s.highFactor
  {
    if domains < s.lowThreshold then (s.lowFactor, Low)
    else if domains <= s.highThreshold then (s.midFactor, Mid)
    else (s.highFactor, High)
  }

  function CoverageRank(c: Coverage): nat {
    match c case Low => 0 case Mid => 1 case High => 2
  }

  /** More distinct domains never lower the bucket, nor the factor when the factors ascend. */
  lemma CoverageMonotone(s: Settings, fewer: int, more: int)
    requires fewer <= more
    ensures CoverageRank(CoverageFactor(fewer, s).1) <= CoverageRank(CoverageFactor(more, s).1)
    ensures s.lowFactor <= s.midFactor <= s.highFactor ==>
      CoverageFactor(fewer, s).0 <= CoverageFactor(more, s).0
  {
  }

  /** The distinct domains among the evidence. */
  function EvidenceDomains(evidence: seq<Evidence>): set<string> {
    set i | 0 <= i < |evidence| :: evidence[i].domain
  }

  function DomainCount(evidence: seq<Evidence>): nat {
    |EvidenceDomains(evidence)|
  }

  /** What a weight adds at a given scale: nothing for the neutral weight 1.0. */
  function Contribution(scale: real, weight: real): real {
    scale * (weight - 1.0)
  }

  /** What one evidence item adds to the base score. */
  function ItemBonus(ev: Evidence, now: int, s: Settings): (r: Result<real, ConfigError>)
    ensures r.Success? <==> DomainWeight(ev.domain, s).Success? && RecencyWeight(ev.publishedAt, now, s).Success?
    ensures r.Success? ==>
      r.value == Contribution(s.domainScale, DomainWeight(ev.domain, s).value) + Contribution(s.recencyScale, RecencyWeight(ev.publishedAt, now, s).value)
  {
    match (DomainWeight(ev.domain, s), RecencyWeight(ev.publishedAt, now, s))
    case (Success(w), Success(r)) => Success(Contribution(s.domainScale, w) + Contribution(s.recencyScale, r))
    case _ => Failure(BadValue)
  }

  /** The summed bonus of the evidence, failing if any item's weights fail. */
  function Bonus(evidence: seq<Evidence>, now: int, s: Settings): Result<real, ConfigError> {
    if evidence == [] then Success(0.0)
    else
      match (Bonus(evidence[..|evidence| - 1], now, s), ItemBonus(evidence[|evidence| - 1], now, s))
      case (Success(before), Success(last)) => Success(before + last)
      case _ => Failure(BadValue)
  }

  function Clamp(x: real): (r: real)
    ensures 0.0 <= r <= 100.0
    ensures 0.0 <= x <= 100.0 ==> r == x
  {
    if x < 0.0 then 0.0 else if x > 100.0 then 100.0 else x
  }

  /** The base score scaled by the coverage factor. */
  function CoveredBase(s: Settings, factor: real): real {
    s.baseScore * factor
  }

  /** `_heuristic_score`: the clamped score, the coverage factor and the bucket. */
  function HeuristicScore(evidence: seq<Evidence>, now: int, s: Settings): (r: Result<(real, real, Coverage), ConfigError>)
    ensures r.Success? ==> 0.0 <= r.value.0 <= 100.0
    ensures r.Success? <==> Bonus(evidence, now, s).Success?
  {
    var coverage := CoverageFactor(DomainCount(evidence), s);
    match Bonus(evidence, now, s)
    case Success(bonus) => Success((Clamp(CoveredBase(s, coverage.0) + bonus), coverage.0, coverage.1))
    case Failure(e) => Failure(e)
  }

  /** The bonus of a concatenation is the sum of the bonuses; it fails iff either part fails. */
  lemma {:induction false} BonusAppend(a: seq<Evidence>, b: seq<Evidence>, now: int, s: Settings)
    ensures Bonus(a + b, now, s).Success? <==> Bonus(a, now, s).Success? && Bonus(b, now, s).Success?
    ensures Bonus(a + b, now, s).Success? ==>
      Bonus(a + b, now, s).value == Bonus(a, now, s).value + Bonus(b, now, s).value
    decreases |b|
  {
    if b == [] {
      assert a + b == a;
    } else {
      var b' := b[..|b| - 1];
      assert (a + b)[..|a + b| - 1] == a + b';
      assert (a + b)[|a + b| - 1] == b[|b| - 1];
      BonusAppend(a, b', now, s);
    }
  }

  /** The bonus of a non-empty sequence: that of all but the last item, plus the last item's. */
  lemma BonusSnoc(evidence: seq<Evidence>, now: int, s: Settings)
    requires evidence != []
    ensures Bonus(evidence, now, s).Success? <==>
      Bonus(evidence[..|evidence| - 1], now, s).Success? && ItemBonus(evidence[|evidence| - 1], now, s).Success?
    ensures Bonus(evidence, now, s).Success? ==>
      Bonus(evidence, now, s).value ==
        Bonus(evidence[..|evidence| - 1], now, s).value + ItemBonus(evidence[|evidence| - 1], now, s).value
  {
  }

  /** Evidence whose weights are all 1.0 adds no bonus. */
  lemma {:induction false} NeutralEvidenceAddsNothing(evidence: seq<Evidence>, now: int, s: Settings)
    requires forall i :: 0 <= i < |evidence| ==> DomainWeight(evidence[i].domain, s) == Success(1.0)
    requires forall i :: 0 <= i < |evidence| ==> RecencyWeight(evidence[i].publishedAt, now, s) == Success(1.0)
    ensures Bonus(evidence, now, s).Success? && Bonus(evidence, now, s).value == 0.0
  {
    if evidence != [] {
      var init := evidence[..|evidence| - 1];
      assert forall i :: 0 <= i < |init| ==> init[i] == evidence[i];
      NeutralEvidenceAddsNothing(init, now, s);
      BonusSnoc(evidence, now, s);
    }
  }

  /** So such evidence scores the clamped, coverage-scaled base alone. */
  lemma NeutralEvidenceScoresBase(evidence: seq<Evidence>, now: int, s: Settings)
    requires forall i :: 0 <= i < |evidence| ==> DomainWeight(evidence[i].domain, s) == Success(1.0)
    requires forall i :: 0 <= i < |evidence| ==> RecencyWeight(evidence[i].publishedAt, now, s) == Success(1.0)
    ensures HeuristicScore(evidence, now, s).Success?
    ensures HeuristicScore(evidence, now, s).value.0 == Clamp(CoveredBase(s, CoverageFactor(DomainCount(evidence), s).0))
  {
    NeutralEvidenceAddsNothing(evidence, now, s);
  }

  /** A failing prefix makes the whole bonus fail. */
  lemma BonusFailsFrom(evidence: seq<Evidence>, i: nat, now: int, s: Settings)
    requires i <= |evidence| && Bonus(evidence[..i], now, s).Failure?
    ensures HeuristicScore(evidence, now, s).Failure?
  {
    BonusAppend(evidence[..i], evidence[i..], now, s);
    assert evidence[..i] + evidence[i..] == evidence;
  }

  /** The score once the bonus is known. */
  lemma HeuristicScoreOf(evidence: seq<Evidence>, now: int, s: Settings, bonus: real)
    requires Bonus(evidence, now, s) == Success(bonus)
    ensures var c := CoverageFactor(DomainCount(evidence), s);
      HeuristicScore(evidence, now, s).Success? &&
      HeuristicScore(evidence, now, s).value == (Clamp(CoveredBase(s, c.0) + bonus), c.0, c.1)
  {
    var c := CoverageFactor(DomainCount(evidence), s);
    var v := HeuristicScore(evidence, now, s).value;
    assert v.0 == Clamp(CoveredBase(s, c.0) + bonus);
    assert v.1 == c.0;
    assert v.2 == c.1;
    assert v == (v.0, v.1, v.2);
  }

  /**
   * `_domain_weight` as the source computes it: the exact lookup, then one
   * pass over `SUFFIX_DEFAULTS.items()` that returns at the first match.
   */
  method ComputeDomainWeight(domain: string, s: Settings) returns (r: Result<real, ConfigError>)
    ensures r == DomainWeight(domain, s)
  {
    if domain == [] {
      return Success(1.0);
    }
    var hit := Contains(s.domainWeights, domain);
    if hit.Failure? {
      return Failure(BadValue);
    }
    if hit.value {
      if s.domainWeights.JObj? {
        return AsReal(ObjMap(s.domainWeights.entries)[domain]);
      }
      return Failure(BadValue);
    }
    if !s.suffixDefaults.JObj? {
      return Failure(BadValue);
    }
    var items := PyDict(s.suffixDefaults.entries);
    var i := 0;
    while i < |items|
      invariant 0 <= i <= |items|
      invariant forall j :: 0 <= j < i ==> !EndsWith(domain, items[j].0)
    {
      if EndsWith(domain, items[i].0) {
        assert FirstSuffix(domain, items) == i;
        return AsReal(items[i].1);
      }
      i := i + 1;
    }
    assert FirstSuffix(domain, items) == |items|;
    return Success(1.0);
  }

  /**
   * `_recency_weight` as the source computes it: one pass over the buckets
   * that skips the malformed ones and returns at the first that fits, then
   * the fallback on the last bucket.
   */
  method ComputeRecencyWeight(published: Option<int>, now: int, s: Settings) returns (r: Result<real, ConfigError>)
    ensures r == RecencyWeight(published, now, s)
  {
    if published.None? {
      return Success(1.0);
    }
    var days := AgeDays(now, published.value);
    var visited := Iterated(s.recencyBuckets);
    if visited.None? {
      return Failure(BadValue);
    }
    var buckets := visited.value;
    var i := 0;
    while i < |buckets|
      invariant 0 <= i <= |buckets|
      invariant forall j :: 0 <= j < i ==> !Fits(buckets[j], days)
    {
      var parsed := ParseBucket(buckets[i]);
      if parsed.Some? && days <= parsed.value.0 {
        assert FirstFit(buckets, days) == i;
        return Success(parsed.value.1);
      }
      i := i + 1;
    }
    assert FirstFit(buckets, days) == |buckets|;
    r := FallbackWeight(s.recencyBuckets);
  }

  /** `_heuristic_score` as the source computes it: one pass accumulating the bonus. */
  method ComputeHeuristic(evidence: seq<Evidence>, now: int, s: Settings) returns (r: Result<(real, real, Coverage), ConfigError>)
    ensures r == HeuristicScore(evidence, now, s)
  {
    var domainsSeen := EvidenceDomains(evidence);
    var factor, bucket := CoverageFactor(|domainsSeen|, s).0, CoverageFactor(|domainsSeen|, s).1;
    var base := CoveredBase(s, factor);
    var bonus := 0.0;
    var i := 0;
    while i < |evidence|
      invariant 0 <= i <= |evidence|
      invariant Bonus(evidence[..i], now, s) == Success(bonus)
    {
      assert evidence[..i + 1][..i] == evidence[..i];
      assert evidence[..i + 1][i] == evidence[i];
      BonusSnoc(evidence[..i + 1], now, s);
      var w := ComputeDomainWeight(evidence[i].domain, s);
      if w.Failure? {
        BonusFailsFrom(evidence, i + 1, now, s);
        return Failure(BadValue);
      }
      var rw := ComputeRecencyWeight(evidence[i].publishedAt, now, s);
      if rw.Failure? {
        BonusFailsFrom(evidence, i + 1, now, s);
        return Failure(BadValue);
      }
      bonus := bonus + Contribution(s.domainScale, w.value);
      bonus := bonus + Contribution(s.recencyScale, rw.value);
      i := i + 1;
    }
    assert evidence[..i] == evidence;
    HeuristicScoreOf(evidence, now, s, bonus);
    assert DomainCount(evidence) == |domainsSeen|;
    r := Success((Clamp(base + bonus), factor, bucket));
  }
}
