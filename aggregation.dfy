/**
 * `list_all_information`: fetch pages 1 to `nb_of_pages` and concatenate
 * their records, page after page.
 *
 * Fetching and parsing a page is the parameter `fetch`, from a URL to what
 * the selections find on the page served there.
 */
module Aggregation {
  import opened Wrappers
  import opened Text
  import opened Extraction

  /** The query string appended for page `i`: `?page=` and the page number. */
  function PageQuery(i: nat): string {
    "?page=" + DecimalString(i)
  }

  /**
   * The URL `list_all_information` fetches for page `i`. The loop reassigns `url`
   * itself, so each page's query string is appended to the previous page's
   * URL rather than to the base URL.
   */
  function PageUrl(base: string, i: nat): string {
    if i == 0 then base else PageUrl(base, i - 1) + PageQuery(i)
  }

  /** The URL for page `i` the loop evidently means to build: the base URL and one query string. */
  function IntendedPageUrl(base: string, i: nat): string {
    base + PageQuery(i)
  }

  /** `range(1, nb_of_pages + 1)`: how many pages are fetched. */
  function PageCount(nbOfPages: int): nat {
    if nbOfPages <= 0 then 0 else nbOfPages
  }

  /** The URLs `list_all_information` fetches, in order. */
  function AsWrittenUrls(base: string, nbOfPages: int): (urls: seq<string>)
    ensures |urls| == PageCount(nbOfPages)
  {
    seq(PageCount(nbOfPages), k requires 0 <= k < PageCount(nbOfPages) => PageUrl(base, k + 1))
  }

  /** The URLs of pages 1 to `nb_of_pages`, built as intended. */
  function IntendedUrls(base: string, nbOfPages: int): (urls: seq<string>)
    ensures |urls| == PageCount(nbOfPages)
  {
    seq(PageCount(nbOfPages), k requires 0 <= k < PageCount(nbOfPages) => IntendedPageUrl(base, k + 1))
  }

  /**
   * The records of the first `n` pages at `urls`, concatenated in order, or
   * the first `IndexError` one of them raises (later pages are then never
   * fetched).
   */
  function AggregateFirst(fetch: string -> Page, urls: seq<string>, n: nat): Result<seq<JobRecord>, IndexError>
    requires n <= |urls|
  {
    if n == 0 then Ok([])
    else
      var earlier := AggregateFirst(fetch, urls, n - 1);
      var latest := PageRecords(fetch(urls[n - 1]));
      if earlier.Err? then earlier
      else if latest.Err? then latest
      else Ok(earlier.value + latest.value)
  }

  /** The records of all the pages at `urls`, in order, or the first error. */
  function Aggregate(fetch: string -> Page, urls: seq<string>): Result<seq<JobRecord>, IndexError> {
    AggregateFirst(fetch, urls, |urls|)
  }

  /** `list_all_information(url, nb_of_pages)`, as written. */
  method ListAllInformation(url: string, nbOfPages: int, fetch: string -> Page) returns (r: Result<seq<JobRecord>, IndexError>)
    ensures r == Aggregate(fetch, AsWrittenUrls(url, nbOfPages))
    ensures nbOfPages <= 0 ==> r == Ok([])
  {
    ghost var urls := AsWrittenUrls(url, nbOfPages);
    var listsOfAllInformation := [];
    var pageUrl := url;
    var i := 1;
    while i <= nbOfPages
      invariant 1 <= i <= |urls| + 1
      invariant pageUrl == PageUrl(url, i - 1)
      invariant AggregateFirst(fetch, urls, i - 1) == Ok(listsOfAllInformation)
    {
      pageUrl := pageUrl + "?page=" + DecimalString(i);
      assert pageUrl == urls[i - 1];
      var listsOfInformation := ExtractPageInformation(fetch(pageUrl));
      if listsOfInformation.Err? {
        AggregateStopsAtError(fetch, urls, i, |urls|);
        return Err(listsOfInformation.error);
      }
      listsOfAllInformation := listsOfAllInformation + listsOfInformation.value;
      i := i + 1;
    }
    return Ok(listsOfAllInformation);
  }

  /** `list_all_information(url, nb_of_pages)` with each page's URL built from the base URL. */
  method ListAllInformationIntended(url: string, nbOfPages: int, fetch: string -> Page) returns (r: Result<seq<JobRecord>, IndexError>)
    ensures r == Aggregate(fetch, IntendedUrls(url, nbOfPages))
    ensures nbOfPages <= 0 ==> r == Ok([])
  {
    ghost var urls := IntendedUrls(url, nbOfPages);
    var listsOfAllInformation := [];
    var i := 1;
    while i <= nbOfPages
      invariant 1 <= i <= |urls| + 1
      invariant AggregateFirst(fetch, urls, i - 1) == Ok(listsOfAllInformation)
    {
      var pageUrl := url + "?page=" + DecimalString(i);
      assert pageUrl == urls[i - 1];
      var listsOfInformation := ExtractPageInformation(fetch(pageUrl));
      if listsOfInformation.Err? {
        AggregateStopsAtError(fetch, urls, i, |urls|);
        return Err(listsOfInformation.error);
      }
      listsOfAllInformation := listsOfAllInformation + listsOfInformation.value;
      i := i + 1;
    }
    return Ok(listsOfAllInformation);
  }

  /** Once a page raises, fetching more pages does not change the outcome. */
  lemma {:induction false} AggregateStopsAtError(fetch: string -> Page, urls: seq<string>, n: nat, m: nat)
    requires n <= m <= |urls|
    requires AggregateFirst(fetch, urls, n).Err?
    ensures AggregateFirst(fetch, urls, m) == AggregateFirst(fetch, urls, n)
    decreases m
  {
    if n < m {
      AggregateStopsAtError(fetch, urls, n, m - 1);
    }
  }

  /** The outcome over the first `n` pages depends only on those pages' URLs. */
  lemma {:induction false} AggregateFirstAgree(fetch: string -> Page, a: seq<string>, b: seq<string>, n: nat)
    requires n <= |a| && n <= |b|
    requires forall k :: 0 <= k < n ==> a[k] == b[k]
    ensures AggregateFirst(fetch, a, n) == AggregateFirst(fetch, b, n)
  {
    if n > 0 {
      AggregateFirstAgree(fetch, a, b, n - 1);
    }
  }

  /** The number of title anchors on the first `n` pages at `urls`. */
  function TotalListings(fetch: string -> Page, urls: seq<string>, n: nat): nat
    requires n <= |urls|
  {
    if n == 0 then 0 else TotalListings(fetch, urls, n - 1) + |fetch(urls[n - 1]).anchors|
  }

  /** Every page before the `n`-th is zippable. */
  predicate ZippableUpTo(fetch: string -> Page, urls: seq<string>, n: nat)
    requires n <= |urls|
  {
    forall k :: 0 <= k < n ==> Zippable(fetch(urls[k]))
  }

  /**
   * Aggregation succeeds exactly when every page fetched is zippable, and
   * then yields one record per title anchor over all the pages.
   */
  lemma {:induction false} AggregateOkIff(fetch: string -> Page, urls: seq<string>, n: nat)
    requires n <= |urls|
    ensures AggregateFirst(fetch, urls, n).Ok? <==> ZippableUpTo(fetch, urls, n)
    ensures AggregateFirst(fetch, urls, n).Ok? ==> |AggregateFirst(fetch, urls, n).value| == TotalListings(fetch, urls, n)
  {
    if n > 0 {
      AggregateOkIff(fetch, urls, n - 1);
    }
  }

  /** A failed aggregation reports the error of the first page that is not zippable. */
  lemma {:induction false} AggregateErrIsFirst(fetch: string -> Page, urls: seq<string>, n: nat)
    requires n <= |urls|
    requires AggregateFirst(fetch, urls, n).Err?
    ensures exists k :: 0 <= k < n && ZippableUpTo(fetch, urls, k)
                        && PageRecords(fetch(urls[k])) == AggregateFirst(fetch, urls, n)
  {
    if AggregateFirst(fetch, urls, n - 1).Err? {
      AggregateErrIsFirst(fetch, urls, n - 1);
    } else {
      AggregateOkIff(fetch, urls, n - 1);
      assert ZippableUpTo(fetch, urls, n - 1);
    }
  }

  /** Pages are concatenated in order: the records of `u + v` are those of `u` followed by those of `v`. */
  lemma AggregateAppend(fetch: string -> Page, u: seq<string>, v: seq<string>)
    requires Aggregate(fetch, u).Ok? && Aggregate(fetch, v).Ok?
    ensures Aggregate(fetch, u + v) == Ok(Aggregate(fetch, u).value + Aggregate(fetch, v).value)
  {
    AggregateFirstAgree(fetch, u + v, u, |u|);
    AggregateAppendFirst(fetch, u, v, |v|);
  }

  /** The induction behind `AggregateAppend`, over the pages of `v` taken so far. */
  lemma {:induction false} AggregateAppendFirst(fetch: string -> Page, u: seq<string>, v: seq<string>, k: nat)
    requires k <= |v|
    requires Aggregate(fetch, u).Ok? && AggregateFirst(fetch, v, k).Ok?
    requires AggregateFirst(fetch, u + v, |u|) == Aggregate(fetch, u)
    ensures AggregateFirst(fetch, u + v, |u| + k) == Ok(Aggregate(fetch, u).value + AggregateFirst(fetch, v, k).value)
  {
    var pu := Aggregate(fetch, u).value;
    if k == 0 {
      assert pu + [] == pu;
    } else {
      AggregateAppendFirst(fetch, u, v, k - 1);
      assert (u + v)[|u| + k - 1] == v[k - 1];
      var pv := AggregateFirst(fetch, v, k - 1).value;
      var latest := PageRecords(fetch(v[k - 1])).value;
      assert (pu + pv) + latest == pu + (pv + latest);
    }
  }

  /** A single page aggregates to that page's own records. */
  lemma AggregateSingle(fetch: string -> Page, u: string)
    ensures Aggregate(fetch, [u]) == PageRecords(fetch(u))
  {
    assert AggregateFirst(fetch, [u], 0) == Ok([]);
    if PageRecords(fetch(u)).Ok? {
      assert [] + PageRecords(fetch(u)).value == PageRecords(fetch(u)).value;
    }
  }

  /** Each page's query string holds exactly one `?`. */
  lemma PageQueryCount(i: nat)
    ensures Count('?', PageQuery(i)) == 1
  {
    var d := DecimalString(i);
    assert PageQuery(i) == "?" + ("page=" + d);
    CountAppend('?', "?", "page=" + d);
    CountAbsent('?', "page=" + d);
  }

  /** The URL fetched for page `i` carries `i` query strings: one per page fetched so far. */
  lemma {:induction false} PageUrlQueryCount(base: string, i: nat)
    ensures Count('?', PageUrl(base, i)) == Count('?', base) + i
  {
    if i > 0 {
      PageUrlQueryCount(base, i - 1);
      CountAppend('?', PageUrl(base, i - 1), PageQuery(i));
      PageQueryCount(i);
    }
  }

  /** The intended URL for any page carries one query string. */
  lemma IntendedUrlQueryCount(base: string, i: nat)
    ensures Count('?', IntendedPageUrl(base, i)) == Count('?', base) + 1
  {
    CountAppend('?', base, PageQuery(i));
    PageQueryCount(i);
  }

  /** Each page's URL extends the previous ones: URLs only grow. */
  lemma {:induction false} PageUrlExtends(base: string, i: nat, j: nat)
    requires i < j
    ensures PageUrl(base, i) < PageUrl(base, j)
    decreases j
  {
    if i < j - 1 {
      PageUrlExtends(base, i, j - 1);
    }
  }

  /**
   * Only page 1 is fetched from the URL the loop means: from page 2 on the
   * fetched URL carries every earlier page's query string as well.
   */
  lemma AsWrittenDiverges(base: string, i: nat)
    requires i >= 1
    ensures PageUrl(base, i) == IntendedPageUrl(base, i) <==> i == 1
  {
    if i >= 2 {
      PageUrlQueryCount(base, i);
      IntendedUrlQueryCount(base, i);
    }
  }

  /** The second page of the jobs board is requested with both query strings. */
  lemma SecondJobsPageUrl()
    ensures PageUrl("https://www.python.org/jobs/", 2) == "https://www.python.org/jobs/?page=1?page=2"
  {
    assert DecimalString(1) == "1";
    assert DecimalString(2) == "2";
  }

  /** Built as intended, different pages get different URLs. */
  lemma IntendedUrlsDistinct(base: string, i: nat, j: nat)
    requires i != j
    ensures IntendedPageUrl(base, i) != IntendedPageUrl(base, j)
  {
    DecimalStringInjective(i, j);
    var n := |base| + 6;
    assert IntendedPageUrl(base, i)[n..] == DecimalString(i);
    assert IntendedPageUrl(base, j)[n..] == DecimalString(j);
  }
}
