/**
 * Configuration loading (core/config.py): the compiled-in defaults overlaid
 * by the keys of a JSON file, with every load failure falling back to the
 * defaults. Reading and parsing the file are abstracted: the caller passes
 * `None` when the file cannot be opened or is not valid JSON, and
 * `Some(doc)` with the parsed document otherwise.
 */
module Config {
  import opened Wrappers

  /** A parsed JSON value. An object keeps its entries in file order. */
  datatype Json =
    | JNull
    | JBool(b: bool)
    | JNum(n: real)
    | JStr(s: string)
    | JArr(items: seq<Json>)
    | JObj(entries: seq<(string, Json)>)

  /** A loaded configuration: key to JSON value. */
  type Cfg = map<string, Json>

  datatype LoadError = NotUpdatable

  /** The compiled-in `_DEFAULTS`. */
  function Defaults(): Cfg {
    map[
      "BASE_SCORE" := JNum(60.0),
      "COVERAGE_TARGET_DOMAINS" := JNum(10.0),
      "COVERAGE_MIN_FACTOR" := JNum(0.6),
      "COVERAGE_MAX_FACTOR" := JNum(1.0),
      "BONUS_DOMAIN_SCALE" := JNum(6.0),
      "BONUS_RECENCY_SCALE" := JNum(5.0),
      "BONUS_RELEVANCE_SCALE" := JNum(5.0),
      "RECENCY_BUCKETS" := JArr([
        JArr([JNum(90.0), JNum(1.15)]),
        JArr([JNum(365.0), JNum(1.10)]),
        JArr([JNum(1095.0), JNum(1.00)]),
        JArr([JNum(3650.0), JNum(0.95)])
      ]),
      "SUFFIX_DEFAULTS" := JObj([]),
      "DOMAIN_WEIGHTS" := JObj([])
    ]
  }

  /** The dictionary a JSON object decodes to: for a repeated key the last value wins. */
  function ObjMap(entries: seq<(string, Json)>): (m: map<string, Json>)
    ensures forall k :: k in m <==> exists i :: 0 <= i < |entries| && entries[i].0 == k
  {
    if entries == [] then map[]
    else
      var last := entries[|entries| - 1];
      var m := ObjMap(entries[..|entries| - 1]);
      assert forall i :: 0 <= i < |entries| - 1 ==> entries[..|entries| - 1][i] == entries[i];
      m[last.0 := last.1]
  }

  /** The value of a key in a decoded object is the one of its last occurrence. */
  lemma {:induction false} ObjMapLast(entries: seq<(string, Json)>, i: nat)
    requires i < |entries|
    requires forall j :: i < j < |entries| ==> entries[j].0 != entries[i].0
    ensures entries[i].0 in ObjMap(entries) && ObjMap(entries)[entries[i].0] == entries[i].1
  {
    if i < |entries| - 1 {
      var init := entries[..|entries| - 1];
      assert init[i] == entries[i];
      ObjMapLast(init, i);
    }
  }

  /** Python truthiness of a parsed document: `data or {}` replaces a falsy one by `{}`. */
  predicate Falsy(doc: Json) {
    match doc
    case JNull => true
    case JBool(b) => !b
    case JNum(n) => n == 0.0
    case JStr(s) => s == []
    case JArr(items) => items == []
    case JObj(entries) => entries == []
  }

  /**
   * What `dict.update` takes from one element of a list: the element must
   * unpack into exactly two parts, a key and a value. A list of two, a
   * string of two characters and an object with two keys (iterated over
   * its keys) do; anything else raises, giving `None`. A key that is a list
   * or an object is unhashable and raises too. A key that is `null`, a
   * boolean or a number is stored by Python but can never be found under a
   * setting's name, so it contributes no entry here.
   */
  function PairOf(item: Json): (r: Option<seq<(string, Json)>>)
    ensures r.Some? ==> |r.value| <= 1
  {
    match item
    case JArr(xs) =>
      if |xs| != 2 then None
      else (
        match xs[0]
        case JStr(k) => Some([(k, xs[1])])
        case JArr(_) => None
        case JObj(_) => None
        case _ => Some([]))
    case JStr(s) => if |s| == 2 then Some([(s[..1], JStr(s[1..]))]) else None
    case JObj(entries) =>
      var d := PyDict(entries);
      if |d| == 2 then Some([(d[0].0, JStr(d[1].0))]) else None
    case _ => None
  }

  /** The entries a list contributes to `dict.update`, in order; `None` when some element is not a pair. */
  function PairsOf(items: seq<Json>): (r: Option<seq<(string, Json)>>)
    ensures r.Some? <==> forall i :: 0 <= i < |items| ==> PairOf(items[i]).Some?
  {
    if items == [] then Some([])
    else
      var init := items[..|items| - 1];
      assert forall i :: 0 <= i < |init| ==> init[i] == items[i];
      match (PairsOf(init), PairOf(items[|items| - 1]))
      case (Some(a), Some(b)) => Some(a + b)
      case _ => None
  }

  /** The entries `out.update(data or {})` applies, in order, or `None` when it raises. */
  function Update(doc: Json): Option<seq<(string, Json)>> {
    match doc
    case JObj(entries) => Some(entries)
    case JArr(items) => PairsOf(items)
    case _ => if Falsy(doc) then Some([]) else None
  }

  /** `_load_from_disk` after parsing: a copy of the defaults updated with the document. */
  function LoadFromDisk(doc: Json): (r: Result<Cfg, LoadError>)
    ensures r.Success? <==> Update(doc).Some?
    ensures doc.JObj? || Falsy(doc) ==> r.Success?
    ensures r.Success? ==> forall k :: k in Defaults() ==> k in r.value
    ensures r.Success? ==>
      forall k :: k in ObjMap(Update(doc).value) ==> k in r.value && r.value[k] == ObjMap(Update(doc).value)[k]
    ensures r.Success? ==>
      forall k :: k in r.value ==>
        if k in ObjMap(Update(doc).value) then r.value[k] == ObjMap(Update(doc).value)[k]
        else k in Defaults() && r.value[k] == Defaults()[k]
  {
    match Update(doc)
    case Some(entries) => Success(Defaults() + ObjMap(entries))
    case None => Failure(NotUpdatable)
  }

  /** `get_cfg`: any failure to open, parse or merge the file yields the defaults. */
  function GetCfg(file: Option<Json>): (r: Cfg)
    ensures forall k :: k in Defaults() ==> k in r
    ensures file.None? ==> r == Defaults()
    ensures file.Some? && LoadFromDisk(file.value).Failure? ==> r == Defaults()
  {
    match file
    case None => Defaults()
    case Some(doc) =>
      match LoadFromDisk(doc)
      case Success(cfg) => cfg
      case Failure(_) => Defaults()
  }

  /** A key the file sets overrides the default; for a repeated key, its last value. */
  lemma FileKeyOverrides(entries: seq<(string, Json)>, i: nat)
    requires i < |entries|
    requires forall j :: i < j < |entries| ==> entries[j].0 != entries[i].0
    ensures GetCfg(Some(JObj(entries)))[entries[i].0] == entries[i].1
  {
    ObjMapLast(entries, i);
  }

  /** A key the file does not mention keeps its default value. */
  lemma AbsentKeyKeepsDefault(entries: seq<(string, Json)>, k: string)
    requires k in Defaults()
    requires forall i :: 0 <= i < |entries| ==> entries[i].0 != k
    ensures GetCfg(Some(JObj(entries)))[k] == Defaults()[k]
  {
    assert k !in ObjMap(entries);
  }

  /** A null, empty or otherwise falsy document yields exactly the defaults. */
  lemma FalsyDocumentGivesDefaults(doc: Json)
    requires Falsy(doc)
    ensures GetCfg(Some(doc)) == Defaults()
  {
    if doc.JObj? {
      assert ObjMap(doc.entries) == map[];
      assert Defaults() + map[] == Defaults();
    }
  }

  /**
   * A file holding a list of pairs updates the defaults too: a pair's value
   * wins unless a later element sets the same key.
   */
  lemma {:induction false} PairListOverrides(items: seq<Json>, i: nat, k: string, v: Json)
    requires PairsOf(items).Some?
    requires i < |items| && items[i] == JArr([JStr(k), v])
    requires forall j :: i < j < |items| ==> PairOf(items[j]).value == [] || PairOf(items[j]).value[0].0 != k
    ensures k in ObjMap(PairsOf(items).value) && ObjMap(PairsOf(items).value)[k] == v
  {
    var init := items[..|items| - 1];
    assert forall j :: 0 <= j < |init| ==> init[j] == items[j];
    var a := PairsOf(init).value;
    var b := PairOf(items[|items| - 1]).value;
    assert PairsOf(items).value == a + b;
    if i == |items| - 1 {
      assert b == [(k, v)];
      assert (a + b)[..|a + b| - 1] == a;
    } else {
      PairListOverrides(init, i, k, v);
      if b != [] {
        assert (a + b)[..|a + b| - 1] == a;
      } else {
        assert a + b == a;
      }
    }
  }

  /** So `[["BASE_SCORE", 90]]` sets the base score to 90. */
  lemma PairListExample()
    ensures GetCfg(Some(JArr([JArr([JStr("BASE_SCORE"), JNum(90.0)])])))["BASE_SCORE"] == JNum(90.0)
  {
    PairListOverrides([JArr([JStr("BASE_SCORE"), JNum(90.0)])], 0, "BASE_SCORE", JNum(90.0));
  }

  /** A list with an element that is not a pair makes the update raise, so the defaults are used. */
  lemma NonPairListGivesDefaults(items: seq<Json>, i: nat)
    requires i < |items| && PairOf(items[i]).None?
    ensures GetCfg(Some(JArr(items))) == Defaults()
  {
  }

  /** The keys of an ordered dictionary, in order. */
  function Keys(d: seq<(string, Json)>): (r: seq<string>)
    ensures |r| == |d| && forall i :: 0 <= i < |d| ==> r[i] == d[i].0
  {
    seq(|d|, i requires 0 <= i < |d| => d[i].0)
  }

  /**
   * The Python dictionary a JSON object decodes to, as its items in
   * iteration order: a key sits where it first occurs and holds the value
   * of its last occurrence.
   */
  function PyDict(entries: seq<(string, Json)>): (d: seq<(string, Json)>)
    ensures |d| <= |entries|
  {
    if entries == [] then []
    else
      var last := entries[|entries| - 1];
      var d := PyDict(entries[..|entries| - 1]);
      if last.0 in Keys(d) then Replace(d, last) else d + [last]
  }

  /** The items `d` with the value of key `kv.0` replaced by `kv.1`. */
  function Replace(d: seq<(string, Json)>, kv: (string, Json)): (r: seq<(string, Json)>)
    ensures |r| == |d|
    ensures forall i :: 0 <= i < |d| ==> r[i].0 == d[i].0
    ensures forall i :: 0 <= i < |d| ==> r[i].1 == if d[i].0 == kv.0 then kv.1 else d[i].1
  {
    seq(|d|, i requires 0 <= i < |d| => if d[i].0 == kv.0 then kv else d[i])
  }

  /** A decoded object has each key once, and exactly the keys of the object. */
  lemma {:induction false} PyDictKeys(entries: seq<(string, Json)>)
    ensures forall i, j :: 0 <= i < j < |PyDict(entries)| ==> PyDict(entries)[i].0 != PyDict(entries)[j].0
    ensures forall k :: k in Keys(PyDict(entries)) <==> k in ObjMap(entries)
  {
    if entries != [] {
      var init := entries[..|entries| - 1];
      var last := entries[|entries| - 1];
      PyDictKeys(init);
      var d := PyDict(init);
      assert forall k :: k in ObjMap(entries) <==> k in ObjMap(init) || k == last.0;
      if last.0 in Keys(d) {
        assert Keys(Replace(d, last)) == Keys(d);
      } else {
        assert Keys(d + [last]) == Keys(d) + [last.0];
      }
    }
  }

  /** A decoded object with entries has at least one item. */
  lemma PyDictNonEmpty(entries: seq<(string, Json)>)
    ensures PyDict(entries) == [] <==> entries == []
  {
    if entries != [] {
      PyDictKeys(entries);
      assert entries[0].0 in ObjMap(entries);
      assert entries[0].0 in Keys(PyDict(entries));
    }
  }

  /** The value an item holds is the one `ObjMap` gives its key: the last occurrence's. */
  lemma {:induction false} PyDictValues(entries: seq<(string, Json)>)
    ensures forall i :: 0 <= i < |PyDict(entries)| ==>
      PyDict(entries)[i].0 in ObjMap(entries) && PyDict(entries)[i].1 == ObjMap(entries)[PyDict(entries)[i].0]
  {
    if entries != [] {
      var init := entries[..|entries| - 1];
      PyDictKeys(init);
      PyDictValues(init);
    }
  }
}
