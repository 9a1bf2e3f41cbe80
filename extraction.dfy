/**
 * `extract_page_information`: turning what the three CSS selections found on
 * one parsed page into job records.
 *
 * The parser is not modelled: a `Page` holds, for each `.listing-company-name a`
 * anchor, its text, its `href` and the text of its second next sibling, and
 * the texts of the `.listing-job-type` and `.listing-company-category a`
 * elements, each list in document order.
 */
module Extraction {
  import opened Wrappers
  import opened Text

  /** The prefix every listing's `href` is appended to. */
  const JobsPath := "https://www.python.org/jobs"

  datatype Anchor = Anchor(text: string, href: string, companyText: string)

  datatype Page = Page(anchors: seq<Anchor>, typeTexts: seq<string>, categoryTexts: seq<string>)

  /** One row of the output: `extract_page_information`'s five-element list, in this order. */
  datatype JobRecord = JobRecord(title: string, url: string, company: string, jobType: string, category: string)

  /** The list whose indexing raised at the zip step. */
  datatype ListName = JobsTypes | JobsCategories

  /** The `IndexError` raised when the zip runs past the end of a list. */
  datatype IndexError = IndexError(list: ListName, index: nat)

  /** `f"https://www.python.org/jobs{href}"`: the href, unchanged, after the jobs prefix. */
  function JobUrl(href: string): (r: string)
    ensures |r| == |JobsPath| + |href|
    ensures r[..|JobsPath|] == JobsPath && r[|JobsPath|..] == href
  {
    JobsPath + href
  }

  // How each of the five fields is built from what the selections found.

  function TitleField(a: Anchor): string {
    Quote(a.text)
  }

  function UrlField(a: Anchor): string {
    JobUrl(a.href)
  }

  function CompanyField(a: Anchor): string {
    Quote(Strip(a.companyText))
  }

  /** Job types and categories are built alike: stripped, then quoted. */
  function LabelField(text: string): string {
    Quote(Strip(text))
  }

  /** Every title has a job type and a category at the same position. */
  predicate Zippable(p: Page) {
    |p.anchors| <= |p.typeTexts| && |p.anchors| <= |p.categoryTexts|
  }

  /** Record `i` of the positional zip: title anchor `i`, job type `i`, category `i`. */
  function RecordOf(p: Page, i: nat): JobRecord
    requires i < |p.anchors| && i < |p.typeTexts| && i < |p.categoryTexts|
  {
    JobRecord(TitleField(p.anchors[i]), UrlField(p.anchors[i]), CompanyField(p.anchors[i]),
              LabelField(p.typeTexts[i]), LabelField(p.categoryTexts[i]))
  }

  /** The first `n` records of the positional zip. */
  function ZipRecords(p: Page, n: nat): seq<JobRecord>
    requires n <= |p.anchors| && n <= |p.typeTexts| && n <= |p.categoryTexts|
  {
    seq(n, i requires 0 <= i < n => RecordOf(p, i))
  }

  /** One more step of the zip appends record `i`. */
  lemma ZipRecordsStep(p: Page, i: nat)
    requires i < |p.anchors| && i < |p.typeTexts| && i < |p.categoryTexts|
    ensures ZipRecords(p, i + 1) == ZipRecords(p, i) + [RecordOf(p, i)]
  {
    assert ZipRecords(p, i + 1)[..i] == ZipRecords(p, i);
  }

  /**
   * What `extract_page_information` returns for a page, or the error it raises:
   * one record per title anchor when every title has a type and a category,
   * otherwise an `IndexError` at the first index one of them lacks (the type
   * list is indexed before the category list).
   */
  function PageRecords(p: Page): (r: Result<seq<JobRecord>, IndexError>)
    ensures r.Ok? <==> Zippable(p)
    ensures r.Ok? ==> |r.value| == |p.anchors|
    ensures r.Err? ==> r.error.index < |p.anchors|
    ensures r.Err? ==> r.error.index == if |p.typeTexts| <= |p.categoryTexts| then |p.typeTexts| else |p.categoryTexts|
    ensures r.Err? ==> (r.error.list == JobsTypes <==> |p.typeTexts| <= |p.categoryTexts|)
  {
    var n := |p.anchors|;
    if |p.typeTexts| < n && |p.typeTexts| <= |p.categoryTexts| then Err(IndexError(JobsTypes, |p.typeTexts|))
    else if |p.categoryTexts| < n then Err(IndexError(JobsCategories, |p.categoryTexts|))
    else Ok(ZipRecords(p, n))
  }

  /** The loop over the title anchors: a title, a url and a company per anchor, in order. */
  method ListingFields(jobs: seq<Anchor>) returns (jobsTitles: seq<string>, jobsUrl: seq<string>, jobsCompanies: seq<string>)
    ensures |jobsTitles| == |jobsUrl| == |jobsCompanies| == |jobs|
    ensures forall k :: 0 <= k < |jobs| ==> jobsTitles[k] == TitleField(jobs[k])
    ensures forall k :: 0 <= k < |jobs| ==> jobsUrl[k] == UrlField(jobs[k])
    ensures forall k :: 0 <= k < |jobs| ==> jobsCompanies[k] == CompanyField(jobs[k])
  {
    jobsTitles, jobsUrl, jobsCompanies := [], [], [];
    for j := 0 to |jobs|
      invariant |jobsTitles| == |jobsUrl| == |jobsCompanies| == j
      invariant forall k :: 0 <= k < j ==> jobsTitles[k] == TitleField(jobs[k])
      invariant forall k :: 0 <= k < j ==> jobsUrl[k] == UrlField(jobs[k])
      invariant forall k :: 0 <= k < j ==> jobsCompanies[k] == CompanyField(jobs[k])
    {
      jobsTitles := jobsTitles + [Quote(jobs[j].text)];
      jobsUrl := jobsUrl + [JobUrl(jobs[j].href)];
      jobsCompanies := jobsCompanies + [Quote(Strip(jobs[j].companyText))];
    }
  }

  /** The loop over the job-type elements, and the identical one over the category links. */
  method LabelFields(raw: seq<string>) returns (labels: seq<string>)
    ensures |labels| == |raw|
    ensures forall k :: 0 <= k < |raw| ==> labels[k] == LabelField(raw[k])
  {
    labels := [];
    for j := 0 to |raw|
      invariant |labels| == j
      invariant forall k :: 0 <= k < j ==> labels[k] == LabelField(raw[k])
    {
      labels := labels + [Quote(Strip(raw[j]))];
    }
  }

  /** `extract_page_information`, once the page has been fetched and parsed. */
  method ExtractPageInformation(page: Page) returns (r: Result<seq<JobRecord>, IndexError>)
    ensures r == PageRecords(page)
  {
    var jobsTitles, jobsUrl, jobsCompanies := ListingFields(page.anchors);
    var jobsTypes := LabelFields(page.typeTexts);
    var jobsCategories := LabelFields(page.categoryTexts);

    var jobsInformation := [];
    var i := 0;
    while i < |jobsTitles|
      invariant i <= |jobsTitles| && i <= |jobsTypes| && i <= |jobsCategories|
      invariant jobsInformation == ZipRecords(page, i)
    {
      if i >= |jobsTypes| {
        return Err(IndexError(JobsTypes, i));
      }
      if i >= |jobsCategories| {
        return Err(IndexError(JobsCategories, i));
      }
      jobsInformation := jobsInformation + [JobRecord(jobsTitles[i], jobsUrl[i], jobsCompanies[i], jobsTypes[i], jobsCategories[i])];
      ZipRecordsStep(page, i);
      i := i + 1;
    }
    return Ok(jobsInformation);
  }

  /** A field written between literal double quotes. */
  predicate Quoted(f: string) {
    |f| >= 2 && f[0] == '"' && f[|f| - 1] == '"'
  }

  /** A quoted field whose text was stripped: no whitespace just inside either quote. */
  predicate QuotedStripped(f: string) {
    Quoted(f) && !IsWhitespace(f[1]) && !IsWhitespace(f[|f| - 2])
  }

  /**
   * Record `i` of a page is built from title anchor `i`, job type `i` and
   * category `i`: the title quoted as found, the url the jobs prefix followed
   * by the href, and company, type and category stripped then quoted.
   */
  lemma RecordAt(p: Page, i: nat)
    requires Zippable(p) && i < |p.anchors|
    ensures PageRecords(p).Ok? && |PageRecords(p).value| == |p.anchors|
    ensures var rec := PageRecords(p).value[i];
            && Quoted(rec.title) && rec.title[1..|rec.title| - 1] == p.anchors[i].text
            && rec.url[..|JobsPath|] == JobsPath && rec.url[|JobsPath|..] == p.anchors[i].href
            && QuotedStripped(rec.company) && rec.company[1..|rec.company| - 1] == Strip(p.anchors[i].companyText)
            && QuotedStripped(rec.jobType) && rec.jobType[1..|rec.jobType| - 1] == Strip(p.typeTexts[i])
            && QuotedStripped(rec.category) && rec.category[1..|rec.category| - 1] == Strip(p.categoryTexts[i])
  {
    assert PageRecords(p).value[i] == RecordOf(p, i);
    QuoteShape(p.anchors[i].text);
    QuoteShape(Strip(p.anchors[i].companyText));
    QuoteShape(Strip(p.typeTexts[i]));
    QuoteShape(Strip(p.categoryTexts[i]));
    QuoteStrippedShape(p.anchors[i].companyText);
    QuoteStrippedShape(p.typeTexts[i]);
    QuoteStrippedShape(p.categoryTexts[i]);
  }

  /** Quoting a stripped text leaves no whitespace just inside the quotes, even when the text is empty. */
  lemma QuoteStrippedShape(s: string)
    ensures QuotedStripped(Quote(Strip(s)))
  {
    var t := Strip(s);
    var q := Quote(t);
    StripSlice(s);
    QuoteShape(t);
    if t == [] {
      assert q == "\"\"";
    } else {
      assert q[1] == t[0] && q[|q| - 2] == t[|t| - 1];
    }
  }

  /**
   * Job types and categories beyond the number of titles are ignored: the
   * records depend only on the first `|anchors|` entries of those lists.
   */
  lemma SurplusIgnored(p: Page, extraTypes: seq<string>, extraCategories: seq<string>)
    requires Zippable(p)
    ensures PageRecords(Page(p.anchors, p.typeTexts + extraTypes, p.categoryTexts + extraCategories)) == PageRecords(p)
  {
    var q := Page(p.anchors, p.typeTexts + extraTypes, p.categoryTexts + extraCategories);
    var n := |p.anchors|;
    forall i | 0 <= i < n
      ensures ZipRecords(q, n)[i] == ZipRecords(p, n)[i]
    {
      assert q.typeTexts[i] == p.typeTexts[i];
      assert q.categoryTexts[i] == p.categoryTexts[i];
    }
    assert ZipRecords(q, n) == ZipRecords(p, n);
  }
}
