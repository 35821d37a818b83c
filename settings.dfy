/**
 * The settings core/verify.py reads from the loaded configuration, each
 * with the fallback written at its `cfg.get` call and converted the way
 * Python's `float(...)` and `int(...)` convert a JSON value.
 *
 * Every scalar setting is read on every run of the pipeline, so they are
 * resolved together up front: a value that cannot be converted makes the
 * run fail, as the exception it raises in the source does. The mapping and
 * bucket settings are consulted only for some inputs and are therefore
 * kept as JSON and converted where they are used (module Heuristic).
 */
module Settings {
  import opened Wrappers
  import opened Config

  /** A configuration value `float(...)` or `int(...)` rejects. */
  datatype ConfigError = BadValue

  /** A non-empty run of ASCII decimal digits, a string both `int(...)` and `float(...)` accept. */
  predicate IsDigits(s: string) {
    s != [] && forall i :: 0 <= i < |s| ==> '0' <= s[i] <= '9'
  }

  /** The number a string of decimal digits spells, leading zeros allowed. */
  function DigitsValue(s: string): (n: nat)
    requires forall i :: 0 <= i < |s| ==> '0' <= s[i] <= '9'
    ensures |s| == 1 ==> n == s[0] as int - '0' as int
  {
    if s == [] then 0
    else
      var init := s[..|s| - 1];
      assert forall i :: 0 <= i < |init| ==> init[i] == s[i];
      10 * DigitsValue(init) + (s[|s| - 1] as int - '0' as int)
  }

  /** `float(v)` for a JSON value; of the numeric strings only plain digit strings are modelled. */
  function AsReal(v: Json): (r: Result<real, ConfigError>)
    ensures v.JNum? ==> r == Success(v.n)
    ensures v.JStr? && IsDigits(v.s) ==> r == Success(DigitsValue(v.s) as real)
    ensures r.Failure? <==> !(v.JNum? || v.JBool? || (v.JStr? && IsDigits(v.s)))
  {
    match v
    case JNum(n) => Success(n)
    case JBool(b) => Success(if b then 1.0 else 0.0)
    case JStr(t) => if IsDigits(t) then Success(DigitsValue(t) as real) else Failure(BadValue)
    case _ => Failure(BadValue)
  }

  /** Python's `int(x)` on a float: truncation toward zero. */
  function Trunc(x: real): (r: int)
    ensures x >= 0.0 ==> r as real <= x < r as real + 1.0
    ensures x < 0.0 ==> r as real - 1.0 < x <= r as real
  {
    if x >= 0.0 then x.Floor else -((-x).Floor)
  }

  /** `int(v)` for a JSON value; of the numeric strings only plain digit strings are modelled. */
  function AsInt(v: Json): (r: Result<int, ConfigError>)
    ensures v.JNum? ==> r == Success(Trunc(v.n))
    ensures v.JStr? && IsDigits(v.s) ==> r == Success(DigitsValue(v.s))
    ensures r.Failure? <==> !(v.JNum? || v.JBool? || (v.JStr? && IsDigits(v.s)))
  {
    match v
    case JNum(n) => Success(Trunc(n))
    case JBool(b) => Success(if b then 1 else 0)
    case JStr(t) => if IsDigits(t) then Success(DigitsValue(t)) else Failure(BadValue)
    case _ => Failure(BadValue)
  }

  /** `float(cfg.get(key, fallback))`. */
  function RealSetting(cfg: Cfg, key: string, fallback: real): (r: Result<real, ConfigError>)
    ensures key !in cfg ==> r == Success(fallback)
    ensures key in cfg ==> r == AsReal(cfg[key])
  {
    if key in cfg then AsReal(cfg[key]) else Success(fallback)
  }

  /** `int(cfg.get(key, fallback))`. */
  function IntSetting(cfg: Cfg, key: string, fallback: int): (r: Result<int, ConfigError>)
    ensures key !in cfg ==> r == Success(fallback)
    ensures key in cfg ==> r == AsInt(cfg[key])
  {
    if key in cfg then AsInt(cfg[key]) else Success(fallback)
  }

  /** `cfg.get(key, fallback)` for a setting kept as JSON. */
  function JsonSetting(cfg: Cfg, key: string, fallback: Json): (r: Json)
    ensures key in cfg ==> r == cfg[key]
    ensures key !in cfg ==> r == fallback
  {
    if key in cfg then cfg[key] else fallback
  }

  datatype Settings = Settings(
    // _coverage_bucket_factor
    lowThreshold: int, highThreshold: int,
    lowFactor: real, midFactor: real, highFactor: real,
    // _heuristic_score
    baseScore: real, domainScale: real, recencyScale: real,
    // _domain_weight, _recency_weight and the source bonus, converted on use
    domainWeights: Json, suffixDefaults: Json, recencyBuckets: Json, bonusDomains: Json,
    // verify_claim_pipeline
    minKeywordMatch: int, maxChunksTotal: int,
    supportScale: real, contradictPenalty: real, neutralAs: real,
    minSourceConf: real, minImportance: real,
    blendAlpha: real, excerptThreshold: real)

  /** Every scalar setting the pipeline reads converts, each with the fallback written where it is read. */
  predicate ScalarsConvert(cfg: Cfg) {
    && IntSetting(cfg, "COVERAGE_LOW_THRESHOLD", 4).Success?
    && IntSetting(cfg, "COVERAGE_HIGH_THRESHOLD", 8).Success?
    && RealSetting(cfg, "COVERAGE_LOW_FACTOR", 0.5).Success?
    && RealSetting(cfg, "COVERAGE_MID_FACTOR", 1.0).Success?
    && RealSetting(cfg, "COVERAGE_HIGH_FACTOR", 1.1).Success?
    && RealSetting(cfg, "BASE_SCORE", 45.0).Success?
    && RealSetting(cfg, "BONUS_DOMAIN_SCALE", 6.0).Success?
    && RealSetting(cfg, "BONUS_RECENCY_SCALE", 5.0).Success?
    && IntSetting(cfg, "NLI_MIN_KEYWORD_MATCH", 2).Success?
    && IntSetting(cfg, "NLI_MAX_CHUNKS_TOTAL", 30).Success?
    && RealSetting(cfg, "NLI_SUPPORT_SCALE", 80.0).Success?
    && RealSetting(cfg, "NLI_CONTRADICT_PENALTY", 50.0).Success?
    && RealSetting(cfg, "INCLUDE_NEUTRAL_AS", 0.0).Success?
    && RealSetting(cfg, "NLI_MIN_SOURCE_CONF", 0.20).Success?
    && RealSetting(cfg, "NLI_SOURCE_MIN_IMPORTANCE", 0.4).Success?
    && RealSetting(cfg, "FINAL_BLEND_ALPHA", 0.75).Success?
    && RealSetting(cfg, "NLI_EXCERPT_THRESHOLD", 0.65).Success?
  }

  /**
   * Every setting the pipeline reads, with the fallback written where it is
   * read: the run's settings exist iff every scalar setting converts, and
   * then each field holds its setting's converted value.
   */
  function FromConfig(cfg: Cfg): (r: Result<Settings, ConfigError>)
    ensures r.Success? <==> ScalarsConvert(cfg)
    ensures r.Success? ==>
      && IntSetting(cfg, "COVERAGE_LOW_THRESHOLD", 4) == Success(r.value.lowThreshold)
      && IntSetting(cfg, "COVERAGE_HIGH_THRESHOLD", 8) == Success(r.value.highThreshold)
      && RealSetting(cfg, "COVERAGE_LOW_FACTOR", 0.5) == Success(r.value.lowFactor)
      && RealSetting(cfg, "COVERAGE_MID_FACTOR", 1.0) == Success(r.value.midFactor)
      && RealSetting(cfg, "COVERAGE_HIGH_FACTOR", 1.1) == Success(r.value.highFactor)
      && RealSetting(cfg, "BASE_SCORE", 45.0) == Success(r.value.baseScore)
      && RealSetting(cfg, "BONUS_DOMAIN_SCALE", 6.0) == Success(r.value.domainScale)
      && RealSetting(cfg, "BONUS_RECENCY_SCALE", 5.0) == Success(r.value.recencyScale)
    ensures r.Success? ==>
      && JsonSetting(cfg, "DOMAIN_WEIGHTS", JObj([])) == r.value.domainWeights
      && JsonSetting(cfg, "SUFFIX_DEFAULTS", JObj([])) == r.value.suffixDefaults
      && JsonSetting(cfg, "RECENCY_BUCKETS", JArr([])) == r.value.recencyBuckets
      && JsonSetting(cfg, "BONUS_DOMAINS", JObj([])) == r.value.bonusDomains
    ensures r.Success? ==>
      && IntSetting(cfg, "NLI_MIN_KEYWORD_MATCH", 2) == Success(r.value.minKeywordMatch)
      && IntSetting(cfg, "NLI_MAX_CHUNKS_TOTAL", 30) == Success(r.value.maxChunksTotal)
      && RealSetting(cfg, "NLI_SUPPORT_SCALE", 80.0) == Success(r.value.supportScale)
      && RealSetting(cfg, "NLI_CONTRADICT_PENALTY", 50.0) == Success(r.value.contradictPenalty)
      && RealSetting(cfg, "INCLUDE_NEUTRAL_AS", 0.0) == Success(r.value.neutralAs)
      && RealSetting(cfg, "NLI_MIN_SOURCE_CONF", 0.20) == Success(r.value.minSourceConf)
      && RealSetting(cfg, "NLI_SOURCE_MIN_IMPORTANCE", 0.4) == Success(r.value.minImportance)
      && RealSetting(cfg, "FINAL_BLEND_ALPHA", 0.75) == Success(r.value.blendAlpha)
      && RealSetting(cfg, "NLI_EXCERPT_THRESHOLD", 0.65) == Success(r.value.excerptThreshold)
  {
    var lowTh :- IntSetting(cfg, "COVERAGE_LOW_THRESHOLD", 4);
    var highTh :- IntSetting(cfg, "COVERAGE_HIGH_THRESHOLD", 8);
    var lowF :- RealSetting(cfg, "COVERAGE_LOW_FACTOR", 0.5);
    var midF :- RealSetting(cfg, "COVERAGE_MID_FACTOR", 1.0);
    var highF :- RealSetting(cfg, "COVERAGE_HIGH_FACTOR", 1.1);
    var base :- RealSetting(cfg, "BASE_SCORE", 45.0);
    var dscale :- RealSetting(cfg, "BONUS_DOMAIN_SCALE", 6.0);
    var rscale :- RealSetting(cfg, "BONUS_RECENCY_SCALE", 5.0);
    var kwMin :- IntSetting(cfg, "NLI_MIN_KEYWORD_MATCH", 2);
    var maxTotal :- IntSetting(cfg, "NLI_MAX_CHUNKS_TOTAL", 30);
    var supp :- RealSetting(cfg, "NLI_SUPPORT_SCALE", 80.0);
    var pen :- RealSetting(cfg, "NLI_CONTRADICT_PENALTY", 50.0);
    var neutralAs :- RealSetting(cfg, "INCLUDE_NEUTRAL_AS", 0.0);
    var minConf :- RealSetting(cfg, "NLI_MIN_SOURCE_CONF", 0.20);
    var minImp :- RealSetting(cfg, "NLI_SOURCE_MIN_IMPORTANCE", 0.4);
    var alpha :- RealSetting(cfg, "FINAL_BLEND_ALPHA", 0.75);
    var thr :- RealSetting(cfg, "NLI_EXCERPT_THRESHOLD", 0.65);
    Success(Settings(
      lowTh, highTh, lowF, midF, highF, base, dscale, rscale,
      JsonSetting(cfg, "DOMAIN_WEIGHTS", JObj([])),
      JsonSetting(cfg, "SUFFIX_DEFAULTS", JObj([])),
      JsonSetting(cfg, "RECENCY_BUCKETS", JArr([])),
      JsonSetting(cfg, "BONUS_DOMAINS", JObj([])),
      kwMin, maxTotal, supp, pen, neutralAs, minConf, minImp, alpha, thr))
  }

  /** The settings a run uses when there is no configuration file. */
  function DefaultSettings(): Settings {
    Settings(
      4, 8, 0.5, 1.0, 1.1, 60.0, 6.0, 5.0,
      JObj([]), JObj([]), Defaults()["RECENCY_BUCKETS"], JObj([]),
      2, 30, 80.0, 50.0, 0.0, 0.20, 0.4, 0.75, 0.65)
  }

  /**
   * Without a configuration file every setting resolves: the base score is
   * the compiled-in 60 (its inline fallback 45 is never reached, since the
   * defaults always carry the key) and the rest take their inline fallbacks.
   */
  lemma DefaultCoverageSettings()
    ensures IntSetting(Defaults(), "COVERAGE_LOW_THRESHOLD", 4) == Success(4)
    ensures IntSetting(Defaults(), "COVERAGE_HIGH_THRESHOLD", 8) == Success(8)
    ensures RealSetting(Defaults(), "COVERAGE_LOW_FACTOR", 0.5) == Success(0.5)
    ensures RealSetting(Defaults(), "COVERAGE_MID_FACTOR", 1.0) == Success(1.0)
    ensures RealSetting(Defaults(), "COVERAGE_HIGH_FACTOR", 1.1) == Success(1.1)
  {
  }

  lemma DefaultHeuristicSettings()
    ensures RealSetting(Defaults(), "BASE_SCORE", 45.0) == Success(60.0)
    ensures RealSetting(Defaults(), "BONUS_DOMAIN_SCALE", 6.0) == Success(6.0)
    ensures RealSetting(Defaults(), "BONUS_RECENCY_SCALE", 5.0) == Success(5.0)
  {
  }

  lemma DefaultNliSettings()
    ensures IntSetting(Defaults(), "NLI_MIN_KEYWORD_MATCH", 2) == Success(2)
    ensures IntSetting(Defaults(), "NLI_MAX_CHUNKS_TOTAL", 30) == Success(30)
    ensures RealSetting(Defaults(), "NLI_SUPPORT_SCALE", 80.0) == Success(80.0)
    ensures RealSetting(Defaults(), "NLI_CONTRADICT_PENALTY", 50.0) == Success(50.0)
  {
  }

  lemma DefaultGateSettings()
    ensures RealSetting(Defaults(), "INCLUDE_NEUTRAL_AS", 0.0) == Success(0.0)
    ensures RealSetting(Defaults(), "NLI_MIN_SOURCE_CONF", 0.20) == Success(0.20)
    ensures RealSetting(Defaults(), "NLI_SOURCE_MIN_IMPORTANCE", 0.4) == Success(0.4)
    ensures RealSetting(Defaults(), "FINAL_BLEND_ALPHA", 0.75) == Success(0.75)
    ensures RealSetting(Defaults(), "NLI_EXCERPT_THRESHOLD", 0.65) == Success(0.65)
  {
  }

  lemma NoFileSettings()
    ensures FromConfig(GetCfg(None)) == Success(DefaultSettings())
  {
    DefaultCoverageSettings();
    DefaultHeuristicSettings();
    DefaultNliSettings();
    DefaultGateSettings();
    assert "BONUS_DOMAINS" !in Defaults();
  }

  /** BASE_SCORE can only fall back to 45 if the loaded configuration lacks it, which never happens. */
  lemma BaseScoreNeverFallsBack(file: Option<Json>)
    ensures "BASE_SCORE" in GetCfg(file)
    ensures FromConfig(GetCfg(file)).Success? ==>
      Success(FromConfig(GetCfg(file)).value.baseScore) == AsReal(GetCfg(file)["BASE_SCORE"])
  {
    assert "BASE_SCORE" in Defaults();
  }
}
