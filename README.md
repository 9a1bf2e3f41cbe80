# Python jobs scraper: record extraction and pagination

This project models the core of a small scraper for the python.org jobs board
(`python_jobs.py`). For each page of listings it builds one five-field record
per job: title, url, company, job type and category. Then it walks the pages
1 to `nb_of_pages` and concatenates their records in page order. The model
also covers the retry decision taken when a page cannot be fetched.

Modules, one per part of `python_jobs.py`:

- `Text`: the string operations applied to the fields. These are
  `str.strip()` (with Python's whitespace set), the `f'"{...}"'` quoting,
  `str.capitalize()` and `str(i)`. The module also has the lemmas that
  characterise them.
- `Extraction`: `extract_page_information`. A parsed page is a `Page`: for
  each title anchor, its text, its `href` and the text of its second next
  sibling, plus the texts of the job-type elements and of the category links.
  `ExtractPageInformation` builds the five per-field lists with loops (the
  title-anchor loop is `ListingFields`; the type and category loops are the
  same code, `LabelFields`) and zips
  them by position. It returns the `IndexError` of the zip step (line 86)
  when the type or category list is shorter than the title list.
- `Fetching`: the `while True` loop of `extract_soup`. The server and the
  user are parameters. `respond(url, n)` is the answer to the `n`-th request.
  `choices[n]` is what the user typed after the `n`-th failure.
- `Aggregation`: `list_all_information`, as written and as evidently
  intended (see Findings). `fetch` stands for fetching and parsing one page.
- `Wrappers`: the `Result` type that carries a raised error.

## Model

| member | source | states |
|---|---|---|
| `Text.LeadingSpace` | python_jobs.py:72 | the count of leading characters `strip()` removes: all of them are whitespace, and the next character (if any) is not |
| `Text.ContentEnd` | python_jobs.py:72 | where `strip()` cuts the tail: everything after it is whitespace, and the character before it (if any) is not |
| `Text.StripSlice` | python_jobs.py:72 | `strip()` returns a contiguous slice of its input; everything cut off on either side is whitespace; the result is empty or starts and ends with non-whitespace |
| `Text.StripIdempotent` | python_jobs.py:77 | stripping an already stripped text changes nothing |
| `Text.QuoteShape` | python_jobs.py:70 | `f'"{s}"'` has two more characters than `s`, starts and ends with `"`, and what lies between the quotes is exactly `s` |
| `Text.Capitalize` | python_jobs.py:29 | `capitalize()` keeps the length, upper-cases the first character and lower-cases every other one |
| `Text.DecimalString` | python_jobs.py:93 | `str(i)` is a non-empty string of decimal digits; it starts with `0` only for 0 and is one digit long exactly below 10 |
| `Text.ParseDecimalString` | python_jobs.py:93 | reading `str(n)` back as a decimal number gives `n` |
| `Text.DecimalStringInjective` | python_jobs.py:93 | different page numbers print differently |
| `Extraction.JobUrl` | python_jobs.py:71 | a record's url is the jobs prefix `https://www.python.org/jobs` followed by the unchanged `href`; both parts can be read back |
| `Extraction.PageRecords` | python_jobs.py:84-88 | the page yields records exactly when the type and category lists are at least as long as the title list, and then one record per title anchor; otherwise the `IndexError` is at index `min(len(types), len(categories))`, which is below the title count, and names the type list exactly when that list is the shorter one (it is indexed first) |
| `Extraction.ListingFields` | python_jobs.py:66-72 | the loop over the title anchors yields one quoted title, one url and one stripped, quoted company per anchor, in anchor order |
| `Extraction.LabelFields` | python_jobs.py:74-82 | the loops over the job-type elements and the category links each yield one stripped, quoted label per element, in document order |
| `Extraction.ExtractPageInformation` | python_jobs.py:59-88 | the field lists built by those loops, zipped by position, give exactly `PageRecords` of the page, error included |
| `Extraction.RecordAt` | python_jobs.py:66-86 | record `i` comes from title anchor `i`, type `i` and category `i`. The title is the anchor text in quotes, unstripped. The url is the prefix followed by the href. Company, type and category are the stripped texts in quotes |
| `Extraction.QuoteStrippedShape` | python_jobs.py:72-82 | a stripped and quoted field starts and ends with `"` and has no whitespace just inside either quote, even when the text is empty |
| `Extraction.SurplusIgnored` | python_jobs.py:84-86 | extra job types or categories beyond the number of titles do not change the records |
| `Fetching.QuitIff` | python_jobs.py:27-30 | the answer ends the program exactly when it is `q` or `Q`; every other answer, the empty one included, retries |
| `Fetching.SoupFrom` | python_jobs.py:20-30 | from request `n` on, the loop makes at least one more request and at most one per remaining answer plus one; it is left waiting for input only after every answer has been used |
| `Fetching.ExtractSoup` | python_jobs.py:20-32 | the retry loop ends exactly as `SoupFrom` from request 0 says |
| `Fetching.ParsedIff` | python_jobs.py:20-23 | the loop returns the page of request `m` exactly when that request is the first OK one and every earlier failure was answered with a retry |
| `Fetching.QuitAfter` | python_jobs.py:24-30 | the program quits after request `m + 1` exactly when that request failed, its answer capitalizes to `Q`, and every earlier failure was answered with a retry |
| `Fetching.AwaitingIff` | python_jobs.py:20-28 | the program is still blocked at the prompt exactly when every answer given was a retry and every request, the last one included, failed |
| `Fetching.OnlyThisUrl` | python_jobs.py:21 | the outcome depends only on the server's answers for the URL given: every retry requests the same URL |
| `Aggregation.AsWrittenUrls` | python_jobs.py:92-93 | `list_all_information` requests `max(nb_of_pages, 0)` URLs; the one for page `i` is the accumulated `PageUrl(base, i)` |
| `Aggregation.IntendedUrls` | python_jobs.py:92-93 | as intended, `max(nb_of_pages, 0)` URLs are requested; the one for page `i` is the base URL followed by `?page=i` |
| `Aggregation.ListAllInformation` | python_jobs.py:90-97 | the loop returns the records of the pages at the accumulated URLs, concatenated in page order, or the first page's `IndexError`; no pages yields the empty list |
| `Aggregation.ListAllInformationIntended` | python_jobs.py:90-97 | the same loop with each page URL built from the base URL returns the concatenation over the intended URLs |
| `Aggregation.AggregateFirstAgree` | python_jobs.py:92-96 | the outcome over the first `n` pages depends only on the URLs of those pages |
| `Aggregation.AggregateStopsAtError` | python_jobs.py:94 | once a page raises, requesting more pages does not change the outcome |
| `Aggregation.AggregateOkIff` | python_jobs.py:90-97 | aggregation over the first `n` pages succeeds exactly when each of them is zippable (its type and category lists are at least as long as its title list), and then holds one record per title anchor over those pages |
| `Aggregation.AggregateErrIsFirst` | python_jobs.py:94-96 | a failed aggregation carries the error of the first page that is not zippable |
| `Aggregation.AggregateAppend` | python_jobs.py:96 | the records of two runs of pages, one after the other, are those of the first run followed by those of the second |
| `Aggregation.AggregateSingle` | python_jobs.py:94-96 | one page aggregates to that page's own records |
| `Aggregation.PageQueryCount` | python_jobs.py:93 | each `?page=i` query string holds exactly one `?` |
| `Aggregation.PageUrlQueryCount` | python_jobs.py:93 | the URL requested for page `i` holds `i` more `?` than the base URL: one query string per page so far |
| `Aggregation.IntendedUrlQueryCount` | python_jobs.py:93 | an intended page URL holds exactly one more `?` than the base URL |
| `Aggregation.PageUrlExtends` | python_jobs.py:93 | each requested URL is a proper prefix of every later one |
| `Aggregation.AsWrittenDiverges` | python_jobs.py:93 | the requested URL equals the intended one exactly for page 1 |
| `Aggregation.SecondJobsPageUrl` | python_jobs.py:93 | page 2 of the jobs board is requested as `https://www.python.org/jobs/?page=1?page=2` |
| `Aggregation.IntendedUrlsDistinct` | python_jobs.py:93 | built as intended, different pages get different URLs |

## Findings

| source | as written | input that shows it | evidently intended | confidence | as-written member | corrected member |
|---|---|---|---|---|---|---|
| python_jobs.py:93 | the loop assigns each page's URL back to `url`, so each page's query string is appended to the previous page's URL | base `https://www.python.org/jobs/`, `nb_of_pages = 2`: page 2 is requested as `https://www.python.org/jobs/?page=1?page=2` | every page URL is the base URL followed by `?page=i` | high; not executed | `Aggregation.AsWrittenDiverges` | `Aggregation.ListAllInformationIntended` |

`ListAllInformation` keeps the code as written. `AsWrittenDiverges`,
`PageUrlQueryCount` and `SecondJobsPageUrl` show how it differs from the
intent. `ListAllInformationIntended` builds every URL from the base. For its
URLs, `IntendedUrlQueryCount` proves one query string per URL and
`IntendedUrlsDistinct` proves a different URL for every page.

## Left out

- HTTP retrieval (`requests.get`) and HTML parsing and CSS selection
  (`BeautifulSoup`, `.select`, `next_sibling`, `job['href']`, `.text`) are
  foreign library calls. They become inputs: `respond` in `Fetching`, `fetch`
  and `Page` elsewhere. So the `KeyError` of a missing `href` and the
  `AttributeError` of a missing sibling are not modelled.
- The CSV output (`init_csv`, `append_csv`, creating the `data` directory,
  encodings, the csv module's quoting) is file I/O.
- The prompt text, `print` and `exit()` are console I/O and process exit.
  A quit is the `Quit` outcome.
- `entry_point` is fixed configuration wiring (base URL, 4 pages, CSV header).
  Only its base URL appears, in `SecondJobsPageUrl`.
- `ListAllInformation` takes `fetch` to return the page every time. The retry
  loop of `Fetching` is modelled on its own and not composed with
  aggregation, so a quit in the middle of aggregation is not modelled.
- `Text.Capitalize`: Python's `capitalize()` applies Unicode title-case and
  lower-case mappings. The model maps only ASCII letters and leaves other
  characters unchanged.
- Partitioning of records by category or by job type: `python_jobs.py` has no
  such code, so none is modelled.
- `Fetching.ExtractSoup`: only a response that is not OK reaches the prompt in
  `extract_soup`. Exceptions raised by `requests.get` (`ConnectionError`,
  `InvalidURL`) and by `input()` (`EOFError` once input is exhausted) propagate
  out of `extract_soup` uncaught and are not modelled. The model stops with
  `AwaitingInput` when the given answers run out, where `extract_soup` would
  block on `input()` or raise `EOFError`.
