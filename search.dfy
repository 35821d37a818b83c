/**
 * The post-processing of `search_serper` (core/search.py): numbering the
 * organic results, keeping the first result of each domain and returning
 * the best `k` of those by rank. The HTTP request itself and URL parsing
 * are not modelled: the response's organic items are an input, and the
 * host part of a link is given by a function `domainOf`.
 */
module Search {
  import opened Wrappers
  import opened Seqs

  /** One `organic` entry of the response; a missing key is `None`. */
  datatype Organic = Organic(
    title: Option<string>,
    link: Option<string>,
    snippet: Option<string>,
    date: Option<string>,
    source: Option<string>)

  /** One search result as `search_serper` builds it. */
  datatype Hit = Hit(
    title: string,
    link: string,
    snippet: string,
    date: Option<string>,
    source: string,
    domain: string,
    rank: int)

  /** `item.get("link") or ""`. */
  function LinkOf(item: Organic): string {
    item.link.GetOr([])
  }

  /** The result dictionary for the `rank`-th organic item. */
  function MakeHit(item: Organic, rank: int, domainOf: string -> string): (h: Hit)
    ensures h.rank == rank && h.link == LinkOf(item) && h.domain == domainOf(LinkOf(item))
  {
    var link := LinkOf(item);
    Hit(item.title.GetOr([]), link, item.snippet.GetOr([]), item.date, item.source.GetOr(domainOf(link)),
        domainOf(link), rank)
  }

  /** `results`: the first `2k` organic items, numbered from 1. */
  function Numbered(organic: seq<Organic>, k: int, domainOf: string -> string): (r: seq<Hit>)
    ensures |r| == |PyPrefix(organic, 2 * k)|
    ensures forall i :: 0 <= i < |r| ==> r[i] == MakeHit(organic[i], i + 1, domainOf)
  {
    var items := PyPrefix(organic, 2 * k);
    seq(|items|, i requires 0 <= i < |items| => MakeHit(items[i], i + 1, domainOf))
  }

  /** The domains of a list of results, in order. */
  function Domains(hs: seq<Hit>): (r: seq<string>)
    ensures |r| == |hs| && forall i :: 0 <= i < |hs| ==> r[i] == hs[i].domain
  {
    seq(|hs|, i requires 0 <= i < |hs| => hs[i].domain)
  }

  /**
   * `list(unique_by_domain.values())`: a result is kept when its domain is
   * not empty and no earlier result had it (a dictionary keeps its keys in
   * insertion order).
   */
  function FirstPerDomain(hs: seq<Hit>): seq<Hit> {
    if hs == [] then []
    else
      var kept := FirstPerDomain(hs[..|hs| - 1]);
      var h := hs[|hs| - 1];
      if h.domain != [] && h.domain !in Domains(kept) then kept + [h] else kept
  }

  /** The position of the first result with domain `d`, or `|hs|` when there is none. */
  function FirstWithDomain(hs: seq<Hit>, d: string): (r: nat)
    ensures r <= |hs|
    ensures r < |hs| ==> hs[r].domain == d
    ensures forall q :: 0 <= q < r ==> hs[q].domain != d
  {
    if hs == [] then 0 else if hs[0].domain == d then 0 else 1 + FirstWithDomain(hs[1..], d)
  }

  lemma {:induction false} FirstWithDomainSnoc(hs: seq<Hit>, h: Hit, d: string)
    requires FirstWithDomain(hs, d) < |hs|
    ensures FirstWithDomain(hs + [h], d) == FirstWithDomain(hs, d)
  {
    assert (hs + [h])[0] == hs[0];
    if hs[0].domain != d {
      assert (hs + [h])[1..] == hs[1..] + [h];
      FirstWithDomainSnoc(hs[1..], h, d);
    }
  }

  lemma {:induction false} FirstWithDomainFound(hs: seq<Hit>, j: nat)
    requires j < |hs|
    ensures FirstWithDomain(hs, hs[j].domain) <= j
  {
    if hs[0].domain != hs[j].domain {
      assert hs[1..][j - 1] == hs[j];
      FirstWithDomainFound(hs[1..], j - 1);
    }
  }

  lemma {:induction false} FirstPerDomainSnoc(hs: seq<Hit>)
    requires hs != []
    ensures var kept := FirstPerDomain(hs[..|hs| - 1]); var h := hs[|hs| - 1];
      FirstPerDomain(hs) == if h.domain != [] && h.domain !in Domains(kept) then kept + [h] else kept
  {
  }

  /** Every kept domain is non-empty, and every non-empty domain of the input is kept. */
  lemma {:induction false} FirstPerDomainCovers(hs: seq<Hit>)
    ensures forall i :: 0 <= i < |FirstPerDomain(hs)| ==> FirstPerDomain(hs)[i].domain != []
    ensures forall j :: 0 <= j < |hs| && hs[j].domain != [] ==> hs[j].domain in Domains(FirstPerDomain(hs))
  {
    if hs != [] {
      var init := hs[..|hs| - 1];
      var h := hs[|hs| - 1];
      var kept := FirstPerDomain(init);
      FirstPerDomainCovers(init);
      assert forall j :: 0 <= j < |init| ==> init[j] == hs[j];
      if h.domain != [] && h.domain !in Domains(kept) {
        var out := kept + [h];
        assert forall i :: 0 <= i < |kept| ==> out[i] == kept[i];
        assert Domains(out) == Domains(kept) + [h.domain];
      }
    }
  }

  /** The `i`-th kept result is the first result of its domain. */
  lemma {:induction false} KeptIsFirst(hs: seq<Hit>, i: nat)
    requires i < |FirstPerDomain(hs)|
    ensures FirstWithDomain(hs, FirstPerDomain(hs)[i].domain) < |hs|
    ensures FirstPerDomain(hs)[i] == hs[FirstWithDomain(hs, FirstPerDomain(hs)[i].domain)]
  {
    var init := hs[..|hs| - 1];
    var h := hs[|hs| - 1];
    var kept := FirstPerDomain(init);
    var x := FirstPerDomain(hs)[i];
    assert hs == init + [h];
    if i < |kept| {
      assert x == kept[i];
      KeptIsFirst(init, i);
      FirstWithDomainSnoc(init, h, x.domain);
      assert init[FirstWithDomain(init, x.domain)] == hs[FirstWithDomain(init, x.domain)];
    } else {
      assert x == h && h.domain !in Domains(kept);
      FirstPerDomainCovers(init);
      assert FirstWithDomain(init, h.domain) == |init|;
      FirstWithDomainFound(hs, |init|);
    }
  }

  /** Kept results keep the order of the input. */
  lemma {:induction false} KeptInOrder(hs: seq<Hit>, i: nat, j: nat)
    requires i < j < |FirstPerDomain(hs)|
    ensures FirstWithDomain(hs, FirstPerDomain(hs)[i].domain) < FirstWithDomain(hs, FirstPerDomain(hs)[j].domain)
  {
    var init := hs[..|hs| - 1];
    var h := hs[|hs| - 1];
    var kept := FirstPerDomain(init);
    var out := FirstPerDomain(hs);
    assert hs == init + [h];
    assert out[i] == kept[i];
    KeptIsFirst(init, i);
    FirstWithDomainSnoc(init, h, kept[i].domain);
    if j < |kept| {
      assert out[j] == kept[j];
      KeptInOrder(init, i, j);
      KeptIsFirst(init, j);
      FirstWithDomainSnoc(init, h, kept[j].domain);
    } else {
      assert out[j] == h && h.domain !in Domains(kept);
      FirstPerDomainCovers(init);
      assert FirstWithDomain(init, h.domain) == |init|;
      FirstWithDomainFound(hs, |init|);
    }
  }

  /** `key=lambda x: x["rank"]`. */
  function RankKey(): Hit -> int {
    (h: Hit) => h.rank
  }

  /** `sort` without `reverse`: a smaller key ranks ahead. */
  function Less(): (int, int) -> bool {
    (a, b) => a < b
  }

  /** What `search_serper` returns for a response whose organic items are `organic`. */
  function SearchResults(organic: seq<Organic>, k: int, domainOf: string -> string): seq<Hit> {
    PyPrefix(SortBy(FirstPerDomain(Numbered(organic, k, domainOf)), RankKey(), Less()), k)
  }

  /**
   * The deduplicated list is already in rank order: each kept result has
   * rank one more than the position of its domain's first result, so the
   * ranks ascend strictly and sorting by rank changes nothing.
   */
  lemma DedupedInRankOrder(organic: seq<Organic>, k: int, domainOf: string -> string)
    ensures var hs := Numbered(organic, k, domainOf); var out := FirstPerDomain(hs);
      && (forall i :: 0 <= i < |out| ==> out[i].rank == FirstWithDomain(hs, out[i].domain) + 1)
      && (forall i, j :: 0 <= i < j < |out| ==> out[i].rank < out[j].rank)
      && SortBy(out, RankKey(), Less()) == out
  {
    var hs := Numbered(organic, k, domainOf);
    var out := FirstPerDomain(hs);
    forall i | 0 <= i < |out| ensures out[i].rank == FirstWithDomain(hs, out[i].domain) + 1 {
      KeptIsFirst(hs, i);
    }
    forall i, j | 0 <= i < j < |out| ensures out[i].rank < out[j].rank {
      KeptInOrder(hs, i, j);
    }
    assert SortedBy(out, RankKey(), Less());
    SortBySortedIsIdentity(out, RankKey(), Less());
  }

  /**
   * `search_serper` returns at most `k` results, strictly ascending by rank,
   * each an unchanged numbered result: the organic item at position
   * `rank - 1`, within the first `2k`.
   */
  lemma SearchResultsShape(organic: seq<Organic>, k: int, domainOf: string -> string)
    ensures k >= 0 ==> |SearchResults(organic, k, domainOf)| <= k
    ensures forall i, j :: 0 <= i < j < |SearchResults(organic, k, domainOf)| ==>
      SearchResults(organic, k, domainOf)[i].rank < SearchResults(organic, k, domainOf)[j].rank
    ensures forall i :: 0 <= i < |SearchResults(organic, k, domainOf)| ==>
      && 1 <= SearchResults(organic, k, domainOf)[i].rank <= |PyPrefix(organic, 2 * k)|
      && SearchResults(organic, k, domainOf)[i] ==
           MakeHit(organic[SearchResults(organic, k, domainOf)[i].rank - 1], SearchResults(organic, k, domainOf)[i].rank, domainOf)
  {
    var r := SearchResults(organic, k, domainOf);
    DedupedInRankOrder(organic, k, domainOf);
    assert r == PyPrefix(FirstPerDomain(Numbered(organic, k, domainOf)), k);
    forall i | 0 <= i < |r|
      ensures 1 <= r[i].rank <= |PyPrefix(organic, 2 * k)| && r[i] == MakeHit(organic[r[i].rank - 1], r[i].rank, domainOf)
    {
      SearchResultItem(organic, k, domainOf, i);
    }
  }

  /** The `i`-th result returned is the numbered result of the organic item at its rank. */
  lemma SearchResultItem(organic: seq<Organic>, k: int, domainOf: string -> string, i: nat)
    requires i < |SearchResults(organic, k, domainOf)|
    ensures var h := SearchResults(organic, k, domainOf)[i];
      1 <= h.rank <= |PyPrefix(organic, 2 * k)| && h == MakeHit(organic[h.rank - 1], h.rank, domainOf)
  {
    var hs := Numbered(organic, k, domainOf);
    var out := FirstPerDomain(hs);
    DedupedInRankOrder(organic, k, domainOf);
    var r := SearchResults(organic, k, domainOf);
    assert r == PyPrefix(out, k);
    assert r[i] == out[i];
    KeptIsFirst(hs, i);
    var j := FirstWithDomain(hs, out[i].domain);
    assert out[i] == hs[j] == MakeHit(organic[j], j + 1, domainOf);
  }

  /**
   * One result per domain: every returned result has a non-empty domain,
   * no other result of the first `2k` with that domain ranks ahead of it,
   * and when fewer than `k` results come back, every non-empty domain of
   * the first `2k` is among them.
   */
  lemma SearchResultsOnePerDomain(organic: seq<Organic>, k: int, domainOf: string -> string)
    ensures forall i :: 0 <= i < |SearchResults(organic, k, domainOf)| ==>
      SearchResults(organic, k, domainOf)[i].domain != []
    ensures forall i, j ::
      (0 <= i < |SearchResults(organic, k, domainOf)| && 0 <= j < |Numbered(organic, k, domainOf)| &&
       Numbered(organic, k, domainOf)[j].domain == SearchResults(organic, k, domainOf)[i].domain) ==>
      SearchResults(organic, k, domainOf)[i].rank <= Numbered(organic, k, domainOf)[j].rank
    ensures forall i, j :: 0 <= i < j < |SearchResults(organic, k, domainOf)| ==>
      SearchResults(organic, k, domainOf)[i].domain != SearchResults(organic, k, domainOf)[j].domain
    ensures k >= 0 && |SearchResults(organic, k, domainOf)| < k ==>
      forall j :: 0 <= j < |Numbered(organic, k, domainOf)| && Numbered(organic, k, domainOf)[j].domain != [] ==>
        Numbered(organic, k, domainOf)[j].domain in Domains(SearchResults(organic, k, domainOf))
  {
    var hs := Numbered(organic, k, domainOf);
    var out := FirstPerDomain(hs);
    var r := SearchResults(organic, k, domainOf);
    DedupedInRankOrder(organic, k, domainOf);
    FirstPerDomainCovers(hs);
    assert r == PyPrefix(out, k);
    assert forall i :: 0 <= i < |r| ==> r[i] == out[i];
    forall i, j | 0 <= i < |r| && 0 <= j < |hs| && hs[j].domain == r[i].domain
      ensures r[i].rank <= hs[j].rank
    {
      FirstWithDomainFound(hs, j);
    }
    if k >= 0 && |r| < k {
      assert r == out;
    }
  }

  /** `for i, item in enumerate(organic[: k * 2], start=1)`: the numbered results. */
  method NumberResults(organic: seq<Organic>, k: int, domainOf: string -> string) returns (results: seq<Hit>)
    ensures results == Numbered(organic, k, domainOf)
  {
    var items := PyPrefix(organic, 2 * k);
    results := [];
    var i := 0;
    while i < |items|
      invariant 0 <= i <= |items|
      invariant results == Numbered(organic, k, domainOf)[..i]
    {
      results := results + [MakeHit(items[i], i + 1, domainOf)];
      i := i + 1;
    }
  }

  lemma DomainsSnoc(hs: seq<Hit>, h: Hit)
    ensures Domains(hs + [h]) == Domains(hs) + [h.domain]
  {
  }

  /** `unique_by_domain` and `list(unique_by_domain.values())`. */
  method UniqueByDomain(results: seq<Hit>) returns (values: seq<Hit>)
    ensures values == FirstPerDomain(results)
  {
    var unique: map<string, Hit> := map[];
    var order: seq<string> := [];
    var i := 0;
    while i < |results|
      invariant 0 <= i <= |results|
      invariant order == Domains(FirstPerDomain(results[..i]))
      invariant forall j :: 0 <= j < |order| ==> order[j] in unique && unique[order[j]] == FirstPerDomain(results[..i])[j]
      invariant forall d :: d in unique ==> d in order
    {
      ghost var kept := FirstPerDomain(results[..i]);
      var d := results[i].domain;
      assert results[..i + 1][..i] == results[..i];
      FirstPerDomainSnoc(results[..i + 1]);
      if d != [] && d !in unique {
        DomainsSnoc(kept, results[i]);
        unique := unique[d := results[i]];
        order := order + [d];
      }
      i := i + 1;
    }
    assert results[..|results|] == results;
    values := seq(|order|, j requires 0 <= j < |order| => unique[order[j]]);
  }

  /** `search_serper` after the response has been received. */
  method SearchSerper(organic: seq<Organic>, k: int, domainOf: string -> string) returns (deduped: seq<Hit>)
    ensures deduped == SearchResults(organic, k, domainOf)
  {
    var results := NumberResults(organic, k, domainOf);
    deduped := UniqueByDomain(results);
    deduped := SortBy(deduped, RankKey(), Less());
    deduped := PyPrefix(deduped, k);
  }
}
