# Mzalendo leaders scraper — a Dafny model of its extraction and aggregation rules

The scraper harvests profiles of Kenyan elected officials (National Assembly,
Senate, county assemblies) from the Mzalendo directory. It fetches listing and
profile pages with a retry/throttle policy, turns each profile into a leader
record, fills in missing counties from a constituency table, groups the records
by county and computes corpus-wide statistics.

This project models the deterministic rules of `enhanced_mzalendo_scraper.py`
over the text the HTML selectors extract. The network, BeautifulSoup, the file
writes and the thread pool are replaced by plain inputs:

- **Fetcher** — `get_page` as a method over `respond: nat -> Option<T>`, the outcome of
  each 0-based attempt. It returns the page, the number of attempts and the waits
  `time.sleep` would make, in half-second units (2 + i after a success at attempt i,
  4 * (i + 1) after a failure that is not the last).
- **Url** — `urljoin` against the fixed base `https://mzalendo.com`, following the
  rules of RFC 3986 section 5.2 as Python applies them: scheme detection, `//netloc`
  references, query and fragment, empty and dot segments.
- **Pagination** — `get_pagination_links` over the `href` of each selected anchor
  (None when an anchor has none).
- **Records / Detail / DetailParse** — the leader record as a datatype whose optional
  dictionary keys are `Option`s. `DetailPage` holds the texts the selectors yield. Each
  list the source builds by appending in a loop is specified by a function in `Detail`
  and built by a method in `DetailParse` that is proved equal to it. The two errors the
  parse can raise are modelled; the source's top-level `except` then keeps the keys
  assigned so far. The errors are the `.select` call on the list that
  `soup.select_one(...) or soup.select(...)` can yield, and the
  `year, month, day = date_text.split('-')` unpacking of a date with a further `-`.
- **Classifier** — `categorize_promise` as an ordered first-match keyword scan.
- **Persistence** — the per-record file stem and the per-county slug.
- **Enrichment** — `enrich_county_data` as an in-place update of an array of records.
- **Counties** — `generate_county_data`: the grouping loop, the slugged file list and
  the summary.
- **Statistics** — `generate_statistics` as one loop over keyed, insertion-ordered
  counters, returning the statistics instead of writing them.
- **Orchestrator** — the detail phase of `scrape_leaders` and `scrape_leaders_threaded`
  over per-candidate inputs (the fetched page or None, and whether the save succeeded).
- **Format** — `format_json_output` as a per-record projection.
- **Text / Collect** — ASCII stand-ins for `strip`, `lower`, `replace`, `split`, `\d+`,
  `re.sub(r'[^\w\-]', '', ...)`, plus order-preserving de-duplication, `None` filtering
  and counter dictionaries.

Behaviour of the code worth knowing:

- With no numbered pagination links, the code returns `[national_assembly_url]`, not an
  empty list. When any link contains `page=1`, it returns None, because the `return`
  is inside the `if` (see Findings).
- A detail page whose HTML is falsy does not drop the candidate. That covers a fetch
  that failed (None) and a successful response with an empty body (`""`), which
  `get_page` returns as it is. `parse_politician_detail_page` then returns the
  candidate's own record, without an `id`, so the file stem comes from the name. That
  record is saved and kept. Only a failure of the save drops a candidate. The model's
  `page == None` stands for both cases.
- `executor.map` yields results in candidate order. So the threaded and sequential
  modes return the same list, not only the same set.
- The name-derived identifier is used only for the file stem. It is never stored as
  the record's `id`.
- `re.match` anchors only at the start. So a made date such as `2021-05-10T00:00`
  still gets a due date, and one with a further `-` makes the parse raise.

## Model

| member | source | states |
|---|---|---|
| `Fetcher.GetPage` | enhanced_mzalendo_scraper.py:47-62 | at most `retry_count` attempts; the page is the first success and every earlier attempt failed; the result is None exactly when no attempt succeeds; the waits are the back-offs 2*(i+1) s after each failure but the last, then 1+0.5*i s after a success at attempt i; no wait follows the final failure; no attempt for `retry_count <= 0` |
| `Fetcher.BackoffTotal` | enhanced_mzalendo_scraper.py:61 | the back-offs grow linearly: n back-offs (n failed attempts, each followed by another attempt) wait n*(n+1) seconds in all; a failed last attempt adds none |
| `Fetcher.DefaultRetryAllFail` | enhanced_mzalendo_scraper.py:47-61 | with the default three attempts all failing, the waits are 2 s and 4 s, 6 s in all |
| `Url.UrlJoin` | enhanced_mzalendo_scraper.py:177 | the result is the reference itself or an `https://` URL; a reference with another scheme (`http:`, `javascript:`) comes back unchanged; an empty reference gives the base URL |
| `Url.JoinSplit` | enhanced_mzalendo_scraper.py:177 | joining the pieces of a split path with the separator gives the path back |
| `Url.ResolveNoDots` | enhanced_mzalendo_scraper.py:177 | resolving a path leaves no `.` or `..` segment |
| `Url.ResolvePlain` | enhanced_mzalendo_scraper.py:177 | a path without dot segments resolves to itself |
| `Url.UrlJoinPlainPath` | enhanced_mzalendo_scraper.py:177 | a relative path without dots, `?` or `#` is appended to the base URL after a single `/` |
| `Url.UrlJoinQuery` | enhanced_mzalendo_scraper.py:177 | a query-only link `?q` is appended to the base URL unchanged |
| `Url.NationalAssemblyJoined` | enhanced_mzalendo_scraper.py:182 | the first-page URL is `https://mzalendo.com/parliament/national_assembly/` |
| `Url.UrlJoinOtherScheme` | enhanced_mzalendo_scraper.py:177 | `javascript:void(0)` and `http://mzalendo.com/x` are returned as they are |
| `Url.UrlJoinRelativePath` | enhanced_mzalendo_scraper.py:177 | an href without scheme, host, query or fragment joins to the base URL followed by its resolved path |
| `Url.UrlJoinCollapsesEmptySegments` | enhanced_mzalendo_scraper.py:177 | inner empty segments of a relative path are dropped: for any segments a and b without `/`, `.`, `?`, `#` or `:`, `a//b` joins to `https://mzalendo.com/a/b` |
| `Url.UrlJoinRemovesDotSegments` | enhanced_mzalendo_scraper.py:177 | `..` removes the segment before it: for any such segments a and b, `/a/../b` joins to `https://mzalendo.com/b` |
| `Url.UrlJoinDotBeforeQuery` | enhanced_mzalendo_scraper.py:177 | a `.` segment before a query leaves the root path: `./?q` joins to `https://mzalendo.com/?q` for any non-empty query without `#` |
| `Pagination.Collected` | enhanced_mzalendo_scraper.py:174-178 | only anchors with an href contribute, so there are no more URLs than anchors |
| `Pagination.CollectPageUrls` | enhanced_mzalendo_scraper.py:174-178 | the loop over the numbered anchors appends exactly the collected URLs, in anchor order |
| `Pagination.AnyPageOne` | enhanced_mzalendo_scraper.py:181 | the scan answers true iff some collected URL contains `page=1` |
| `Pagination.DedupUrls` | enhanced_mzalendo_scraper.py:185-187 | the seen-set comprehension keeps exactly the first occurrence of each URL, in order |
| `Pagination.GetPaginationLinks` | enhanced_mzalendo_scraper.py:167-187 | None exactly when a collected URL contains `page=1`; otherwise the national-assembly URL followed by the collected URLs, de-duplicated keeping first occurrences |
| `Pagination.PaginationListShape` | enhanced_mzalendo_scraper.py:181-187 | a returned list starts with the national-assembly URL, holds every collected URL, holds nothing else and holds nothing twice |
| `Pagination.NoLinksGiveFirstPageOnly` | enhanced_mzalendo_scraper.py:174-187 | a page without numbered links yields exactly `[national_assembly_url]` |
| `Pagination.PageOneLinkDropsEveryPage` | enhanced_mzalendo_scraper.py:177-187 | links `?page=1`, `?page=2` join to `https://mzalendo.com?page=1` and `...?page=2`; the first contains `page=1`, so the function as written returns None |
| `Pagination.CorrectedPaginationLinksSound` | enhanced_mzalendo_scraper.py:180-187 | the corrected function always returns a duplicate-free list holding every collected URL, and agrees with the code wherever the code returns a list |
| `Collect.DedupElements` | enhanced_mzalendo_scraper.py:186-187 | the `seen`-set filter keeps exactly the elements of its input |
| `Collect.DedupDistinct` | enhanced_mzalendo_scraper.py:186-187 | the `seen`-set filter leaves no element twice |
| `Collect.DedupFirstOccurrenceOrder` | enhanced_mzalendo_scraper.py:186-187 | kept elements appear in the order of their first occurrence in the input |
| `Classifier.CategorizePromise` | enhanced_mzalendo_scraper.py:431-451 | the ordered first-match keyword scan; its meaning is stated by `Classifier.CategorizeIsFirstMatch`, `CategorizeFallback` and `CategorizeRange` |
| `Classifier.CategoryNamesDistinct` | enhanced_mzalendo_scraper.py:434-451 | the seven category names are distinct and none is "Other" |
| `Classifier.CategorizeIsFirstMatch` | enhanced_mzalendo_scraper.py:444-449 | a category is returned iff one of its keywords occurs in the lower-cased text and no keyword of an earlier-declared category does |
| `Classifier.CategorizeFallback` | enhanced_mzalendo_scraper.py:446-451 | "Other" iff no keyword of any category occurs |
| `Classifier.CategorizeRange` | enhanced_mzalendo_scraper.py:434-451 | the result is a declared category or "Other" |
| `Classifier.SchoolWinsOverHospital` | enhanced_mzalendo_scraper.py:435-449 | text mentioning "school" is Education whatever else it mentions, e.g. "hospital" |
| `Classifier.CategorizeIgnoresCase` | enhanced_mzalendo_scraper.py:444 | texts equal up to ASCII case get the same category |
| `Detail.ProfileId` | enhanced_mzalendo_scraper.py:199 | the id never contains '/' |
| `Detail.ProfileIdOfUrl` | enhanced_mzalendo_scraper.py:199 | for `prefix/segment` followed by any number of slashes, the id is the segment |
| `Detail.TrimSlashesAfter` | enhanced_mzalendo_scraper.py:199 | `rstrip('/')` removes exactly the trailing slashes of a URL whose core does not end in '/' |
| `Detail.SearchMemberOf` | enhanced_mzalendo_scraper.py:208 | a match of `Member of ([\w\s\-]+)` is non-empty and made only of group characters |
| `Detail.SearchMemberOfFinds` | enhanced_mzalendo_scraper.py:208 | the search succeeds iff "Member of " followed by a group character occurs somewhere |
| `Detail.MemberOfParty` | enhanced_mzalendo_scraper.py:208-210 | "Member of P" yields P when P is all group characters |
| `Detail.CountyOf` | enhanced_mzalendo_scraper.py:213-217 | the county key is set iff the stripped location text contains "County", and removing it makes the text at least 6 characters shorter |
| `Detail.CountyOfName` | enhanced_mzalendo_scraper.py:216-217 | "Homa Bay County"-style text (no 'C' in the name) yields the bare name |
| `Detail.NumberIn` | enhanced_mzalendo_scraper.py:376-382 | a count is read iff the stripped text holds a digit; its value is given by `Detail.NumberInValue` |
| `Text.FirstNumber` | enhanced_mzalendo_scraper.py:229-231 | a number is found iff the text holds a digit |
| `Text.FirstNumberValue` | enhanced_mzalendo_scraper.py:229-231 | for text made of a digit-free part, a run of digits and a part not starting with a digit, the number read is the value of that run |
| `Detail.NumberInValue` | enhanced_mzalendo_scraper.py:376-382 | a present or absent count is the value of the first maximal run of digits in the stripped text |
| `Detail.AttendanceCountValue` | enhanced_mzalendo_scraper.py:374-378 | a row's present count is the value of the first run of digits in its stripped text |
| `Detail.ElectionOf` | enhanced_mzalendo_scraper.py:220-235 | the election key is set iff the section exists and has a date or a number in its votes text |
| `Detail.PhoneNumbers` | enhanced_mzalendo_scraper.py:248-250 | one phone number per `tel:` link, in order |
| `Detail.SocialMediaOf` | enhanced_mzalendo_scraper.py:258-269 | socialMedia is set iff a twitter or facebook link exists |
| `Detail.ContactOf` | enhanced_mzalendo_scraper.py:238-272 | the contact key is set iff the section exists and has an email, a phone, an address or a social link |
| `Detail.EducationOfKeeps` | enhanced_mzalendo_scraper.py:281-287 | an entry is kept iff it is the stripped text of an entry and longer than 5 characters |
| `Detail.PositionsOfTitled` | enhanced_mzalendo_scraper.py:293-316 | every kept position has a non-blank title, a date only when non-blank, and there are no more positions than entries |
| `Detail.PositionsOfMembers` | enhanced_mzalendo_scraper.py:293-316 | a position is kept iff some entry yields it |
| `Detail.PositionsOfCount` | enhanced_mzalendo_scraper.py:293-316 | there are exactly as many positions as entries with a non-blank stripped title |
| `Detail.IsoDateSplit` | enhanced_mzalendo_scraper.py:342-343 | a date matching the ISO prefix splits into year, month and the split of the rest |
| `Detail.DueDateOf` | enhanced_mzalendo_scraper.py:337-345 | the due-date outcome of one made date; its meaning is stated by `Detail.DueDateSpec` |
| `Detail.DueDateSpec` | enhanced_mzalendo_scraper.py:337-345 | no due date iff the ISO prefix does not match; the unpacking raises iff it matches and another '-' follows the day; otherwise the due date is str(int(year)+3), then month, then the rest, copied verbatim |
| `Detail.DueDateThreeYearsLater` | enhanced_mzalendo_scraper.py:342-345 | "2021-05-10" is due on "2024-05-10" |
| `Detail.DueDateDropsLeadingZeros` | enhanced_mzalendo_scraper.py:344-345 | "0021-05-10" is due on "24-05-10": int() drops the leading zeros |
| `Detail.DueDateOtherFormats` | enhanced_mzalendo_scraper.py:342-343 | "10 May 2021" gets no due date; "2021-05-10-extra" makes the unpacking raise |
| `Detail.PromiseStepCases` | enhanced_mzalendo_scraper.py:328-348 | a statement raises iff its made date does; otherwise it yields a promise iff it has non-blank text |
| `Detail.PromisesOf` | enhanced_mzalendo_scraper.py:322-348 | the promise list or the error that ends the loop; its meaning is stated by `Detail.PromisesRaiseIff`, `PromisesNumbered` and `PromisesRaisedPrefix` |
| `Detail.PromisesRaiseIff` | enhanced_mzalendo_scraper.py:322-348 | the promise loop raises iff some statement with text has a made date with the ISO prefix and a further '-' |
| `Detail.PromisesNumbered` | enhanced_mzalendo_scraper.py:328-348 | the kept promises are as many as the statements with text, numbered pr1..prN without gaps, each "in-progress", with its non-blank text and the classifier's category |
| `Detail.PromisesRaisedPrefix` | enhanced_mzalendo_scraper.py:324-348 | an error on some statement ends the whole loop with the error |
| `Detail.AttendanceOf` | enhanced_mzalendo_scraper.py:356-387 | the parsed attendance records; `Detail.AttendanceOfMembers` and `AttendanceOfCount` state which rows give records, and `Detail.AttendanceOfConsistent` what each record holds |
| `Detail.AttendanceOfConsistent` | enhanced_mzalendo_scraper.py:359-387 | every parsed record has a non-blank period and a total iff both present and absent, and then total = present + absent; header-only tables give no records |
| `Detail.AttendanceOfMembers` | enhanced_mzalendo_scraper.py:359-387 | a record is kept iff some row is parsed into it |
| `Detail.AttendanceOfCount` | enhanced_mzalendo_scraper.py:359-387 | there are exactly as many records as rows that are not headers and have a non-blank stripped period |
| `Detail.AttendanceRecordConsistent` | enhanced_mzalendo_scraper.py:360-387 | one parsed row has a non-blank period and a total iff both counts were read, equal to their sum; a header row gives no record |
| `Detail.CommitteesOfKeeps` | enhanced_mzalendo_scraper.py:395-401 | a committee is kept iff it is the non-blank stripped text of an entry |
| `Detail.ApprovalOf` | enhanced_mzalendo_scraper.py:409-415 | the rating is set iff the attendance list is non-empty and its totals sum above zero, and then its denominator is positive |
| `Detail.ApprovalWithinScale` | enhanced_mzalendo_scraper.py:409-415 | when every record with a present count also has a total, summed present <= summed total, so the rating is at most 5 |
| `Detail.ApprovalCanExceedScale` | enhanced_mzalendo_scraper.py:410-414 | a record with a present count and no absent count adds to the numerator only: ratio 5/1 |
| `Detail.Descriptions` | enhanced_mzalendo_scraper.py:420-421 | the i-th achievement is the i-th promise's description |
| `Detail.KeyAchievementsOf` | enhanced_mzalendo_scraper.py:418-424 | set iff there are promises; then the first min(5, N) descriptions in order |
| `Detail.HeadFieldsKeep` | enhanced_mzalendo_scraper.py:196-272 | the head keys set the id and override party and county only when found, and leave the list-page and later keys alone |
| `Detail.TailFieldsKeep` | enhanced_mzalendo_scraper.py:350-424 | the keys after the promise dates leave the list-page keys and the id alone |
| `Detail.DetailRecord` | enhanced_mzalendo_scraper.py:190-429 | the parsed record; its meaning is stated by `Detail.DetailKeepsListFields`, `DetailErrorKeepsEarlierFields` and `DetailCompleteParse` |
| `Detail.DetailKeepsListFields` | enhanced_mzalendo_scraper.py:190-200 | the list-page keys are never changed; without a page the result is the candidate itself; with a page the id is the last URL segment |
| `Detail.DetailErrorKeepsEarlierFields` | enhanced_mzalendo_scraper.py:275-281 | an error in the experience section or a promise date leaves the promise, attendance, committee, rating and achievement keys as they were, and keeps the party and county already parsed |
| `Detail.ExperienceErrorKeepsHead` | enhanced_mzalendo_scraper.py:275-281 | when the experience section is a list of elements, the record is exactly the one built by the head keys |
| `Detail.PromiseErrorKeepsExperience` | enhanced_mzalendo_scraper.py:275-348 | when a promise date raises, the record is the head keys plus the education and position keys of the experience section |
| `Detail.DerivedFieldsSpec` | enhanced_mzalendo_scraper.py:406-424 | the rating is present iff attendance is non-empty with positive total, and is then sum(present)/sum(total); achievements are present iff promises are, and are then the first min(5, N) descriptions |
| `Detail.ListFieldsComplete` | enhanced_mzalendo_scraper.py:350-404 | without a date error, the promises key is set iff some statement has text, and then it is well numbered; every attendance record is consistent |
| `Detail.DetailCompleteParse` | enhanced_mzalendo_scraper.py:190-429 | on a complete parse of a fresh candidate: promises well numbered, attendance consistent, rating iff totals > 0 with the exact ratio, achievements iff promises, equal to the first min(5, N) descriptions |
| `DetailParse.ParseEducation` | enhanced_mzalendo_scraper.py:280-287 | the education loop computes exactly the kept education list |
| `DetailParse.ParsePositions` | enhanced_mzalendo_scraper.py:293-316 | the position loop computes exactly the kept position list |
| `DetailParse.ParsePosition` | enhanced_mzalendo_scraper.py:294-314 | one entry gives no position when its stripped title is blank, otherwise the title with the optional organisation and non-blank date (`Detail.PositionsOfMembers` and `PositionsOfCount` lift this to the list) |
| `DetailParse.DueDateFor` | enhanced_mzalendo_scraper.py:342-345 | the step computes `Detail.DueDateOf`: no due date without the ISO prefix, the unpacking error with a further '-', otherwise the year plus three (`Detail.DueDateSpec`) |
| `DetailParse.ParseStatement` | enhanced_mzalendo_scraper.py:325-348 | one statement raises iff its made date does, and otherwise yields promise pr(k+1) iff its text is non-blank (`Detail.PromiseStepCases`) |
| `DetailParse.ParsePromises` | enhanced_mzalendo_scraper.py:322-348 | the statement loop yields the promise list, or the error that ends it |
| `DetailParse.ParseAttendance` | enhanced_mzalendo_scraper.py:356-387 | the attendance loop computes exactly the parsed record list |
| `DetailParse.ParseCommittees` | enhanced_mzalendo_scraper.py:395-401 | the committee loop computes the committee list, which keeps exactly the non-blank stripped texts (`Detail.CommitteesOfKeeps`) |
| `DetailParse.SumAttendance` | enhanced_mzalendo_scraper.py:410-411 | the two sums are the summed present and summed total counts, missing keys as 0 |
| `DetailParse.KeyAchievements` | enhanced_mzalendo_scraper.py:419-421 | min(5, N) entries, the i-th being the i-th promise's description |
| `DetailParse.AssignHead` | enhanced_mzalendo_scraper.py:196-272 | the id, party, county, election and contact assignments give the head keys, which set the id, override party and county only when found and leave the other keys alone (`Detail.HeadFieldsKeep`) |
| `DetailParse.AssignLists` | enhanced_mzalendo_scraper.py:350-404 | the promises, attendance and committees assignments give the list keys: promises set iff some statement has text and then numbered without gaps, every attendance record consistent (`Detail.ListFieldsComplete`) |
| `DetailParse.AssignDerived` | enhanced_mzalendo_scraper.py:408-424 | the rating is set iff attendance totals are positive and is then their ratio; achievements are set iff promises are, and are their first min(5, N) descriptions (`Detail.DerivedFieldsSpec`) |
| `DetailParse.ParseDetailPage` | enhanced_mzalendo_scraper.py:190-429 | the whole parse computes the specified record, stopping at the first error |
| `Text.Sanitize` | enhanced_mzalendo_scraper.py:516 | the result keeps only `[A-Za-z0-9_-]` characters and is no longer than its input |
| `Text.SanitizeFromInput` | enhanced_mzalendo_scraper.py:516 | every kept character comes from the input |
| `Text.SanitizeIdentity` | enhanced_mzalendo_scraper.py:516 | text made only of kept characters is unchanged |
| `Text.Strip` | enhanced_mzalendo_scraper.py:215 | no leading or trailing whitespace is left and the text does not grow |
| `Text.TrimLeftDropped` | enhanced_mzalendo_scraper.py:215 | stripping on the left removes only characters of the given set |
| `Text.TrimRightDropped` | enhanced_mzalendo_scraper.py:215 | stripping on the right removes only characters of the given set |
| `Text.Lower` | enhanced_mzalendo_scraper.py:444 | the length is kept and no upper-case letter is left |
| `Text.LowerIdentity` | enhanced_mzalendo_scraper.py:444 | text without upper-case letters is unchanged |
| `Persistence.FileStem` | enhanced_mzalendo_scraper.py:509-516 | the stem has only `[A-Za-z0-9_-]` characters and is no longer than the raw identifier |
| `Persistence.FileStemOfSafeId` | enhanced_mzalendo_scraper.py:512-516 | an id made of safe characters is used unchanged |
| `Persistence.FileStemOfName` | enhanced_mzalendo_scraper.py:509-516 | without an id, a name of letters, digits, `_`, `-` and spaces gives its lower-cased, dashed form, losing no character |
| `Persistence.FileStemsCollide` | enhanced_mzalendo_scraper.py:516-519 | ids "x.y" and "xy" differ but share a file stem, so one file overwrites the other |
| `Persistence.CountySlug` | enhanced_mzalendo_scraper.py:656 | the slug has only safe characters and is no longer than the county name |
| `Persistence.CountySlugShape` | enhanced_mzalendo_scraper.py:656 | a slug has no upper-case letter and no space |
| `Persistence.CountySlugIdempotent` | enhanced_mzalendo_scraper.py:656 | slugging a slug changes nothing |
| `Persistence.CountySlugsCollide` | enhanced_mzalendo_scraper.py:656-657 | "Homa Bay" and "homa_bay" get the same county file |
| `Enrichment.EnrichCountyData` | enhanced_mzalendo_scraper.py:524-554 | the records array is updated in place to the enriched list, and the returned list is that same list in the same order |
| `Enrichment.EnrichOne` | enhanced_mzalendo_scraper.py:547-550 | the loop body for one record; its meaning is stated by `Enrichment.EnrichOneSpec` |
| `Enrichment.EnrichAll` | enhanced_mzalendo_scraper.py:545-554 | every record after the loop, as many as before; `Enrichment.EnrichAllPointwise` states the order |
| `Enrichment.EnrichAllPointwise` | enhanced_mzalendo_scraper.py:545-554 | length and order are kept: entry k is record k after the loop body |
| `Enrichment.EnrichOneSpec` | enhanced_mzalendo_scraper.py:547-550 | the county changes iff the constituency is truthy, the county falsy and the constituency a table key; it is then the table's county; no other key changes |
| `Enrichment.EnrichOneTruthy` | enhanced_mzalendo_scraper.py:547-550 | afterwards a record has a county iff it had one or its constituency is a table key |
| `Enrichment.EnrichKeepsCounty` | enhanced_mzalendo_scraper.py:547 | records that all have a county are returned unchanged |
| `Enrichment.EnrichIdempotent` | enhanced_mzalendo_scraper.py:545-554 | enriching twice equals enriching once |
| `Enrichment.KamukunjiIsNairobi` | enhanced_mzalendo_scraper.py:527-550 | a Kamukunji record without a county is placed in Nairobi |
| `Counties.GenerateCountyData` | enhanced_mzalendo_scraper.py:638-665 | file k is the slug of the k-th county group with its records; the summary is the name and record count per group |
| `Counties.GroupsOf` | enhanced_mzalendo_scraper.py:640-647 | the county groups the loop builds; their meaning is stated by `Counties.GroupsOfSpec` |
| `Counties.GroupsOfSpec` | enhanced_mzalendo_scraper.py:640-647 | the group names are the truthy counties de-duplicated in first-seen order; each group holds that county's records in record order; the summary counts are a counter of the counties |
| `Counties.CountyDataSpec` | enhanced_mzalendo_scraper.py:640-663 | counties are named once, are exactly the records' truthy counties, each group is exactly its county's records, and the summary counts each county's records and sum to the records with a county |
| `Counties.EmptyCountyInNoGroup` | enhanced_mzalendo_scraper.py:643 | an empty county is in no group |
| `Statistics.CountEducation` | enhanced_mzalendo_scraper.py:709-724 | the education loop adds one to the tier of each entry |
| `Statistics.CountPromises` | enhanced_mzalendo_scraper.py:745-750 | the promise loop adds one to the category of each promise |
| `Statistics.SumRatios` | enhanced_mzalendo_scraper.py:728-734 | sums present/total over records with both keys and a positive total, and counts those records |
| `Statistics.GenderStep` | enhanced_mzalendo_scraper.py:699-705 | adds one to the guessed gender |
| `Statistics.AttendanceStep` | enhanced_mzalendo_scraper.py:727-738 | adds the leader's mean attendance percentage, and one leader, when a record counts |
| `Statistics.EducationStep` | enhanced_mzalendo_scraper.py:708-724 | a leader without education adds nothing; otherwise its entries' tiers are counted |
| `Statistics.PromiseCategoryStep` | enhanced_mzalendo_scraper.py:744-750 | a leader without promises adds nothing; otherwise its promises' categories are counted |
| `Statistics.AddLeaderStep` | enhanced_mzalendo_scraper.py:684-750 | the loop body updates every counter by the leader's keys |
| `Statistics.TalliesSpec` | enhanced_mzalendo_scraper.py:684-750 | the loop's counters equal counters built key by key from the leaders in order |
| `Statistics.GenerateStatistics` | enhanced_mzalendo_scraper.py:667-754 | the statistics are the key-by-key counters and the mean of the leaders' attendance percentages (0 without any) |
| `Statistics.KeyCounts` | enhanced_mzalendo_scraper.py:697-750 | one tier key per education entry, one category key per promise, one gender per leader |
| `Statistics.StatsOf` | enhanced_mzalendo_scraper.py:667-754 | the statistics of a list of leaders; `Statistics.StatisticsTotals`, `StatisticsCounts` and `StatsCounters` state what they count |
| `Statistics.StatisticsTotals` | enhanced_mzalendo_scraper.py:684-750 | by_category, by_party and male+female+unknown each sum to total_leaders; education_levels sums to the number of education entries; promises_by_category sums to the number of promises |
| `Statistics.StatisticsCounts` | enhanced_mzalendo_scraper.py:686-750 | the count of each party, category and promise category is the number of its occurrences ("unknown" for a missing party) |
| `Statistics.StatsCounters` | enhanced_mzalendo_scraper.py:684-750 | the statistics count every leader, and each counter is the tally of the leaders' category, party, education or promise keys |
| `Statistics.GenderOf` | enhanced_mzalendo_scraper.py:700-705 | the gender guess; its meaning is stated by `Statistics.GenderOrder` |
| `Statistics.GenderOrder` | enhanced_mzalendo_scraper.py:700-705 | a position mentioning "women" is female whatever the title; male iff not female and the name starts with "Mr." or "Hon." |
| `Statistics.DegreeTier` | enhanced_mzalendo_scraper.py:710-720 | the education tier; its meaning is stated by `Statistics.DegreeTierOrder` |
| `Statistics.DegreeTierOrder` | enhanced_mzalendo_scraper.py:710-720 | "phd" wins over every other keyword; Masters only with "master"; every entry gets one of six tiers |
| `Statistics.LeaderAttendanceBounds` | enhanced_mzalendo_scraper.py:727-738 | with present <= total, a leader's mean attendance is between 0 and 100 percent |
| `Statistics.AttendanceAverageIsPercentage` | enhanced_mzalendo_scraper.py:727-754 | with present <= total, attendance_average is between 0 and 100 |
| `Orchestrator.ProcessPolitician` | enhanced_mzalendo_scraper.py:480-495 | one candidate's outcome; its meaning is stated by `Orchestrator.ProcessPoliticianSpec` |
| `Orchestrator.ProcessPoliticianStep` | enhanced_mzalendo_scraper.py:480-495 | one candidate: the parsed record, tagged with a truthy subcategory, or None when the save raised |
| `Orchestrator.ProcessPoliticianSpec` | enhanced_mzalendo_scraper.py:480-495 | a record is returned iff the save succeeded; it keeps the candidate's name, URL and category, carries the subcategory, and is the candidate itself when the fetch failed |
| `Orchestrator.ScrapeSequential` | enhanced_mzalendo_scraper.py:87-108 | the sequential loop returns the successful records in candidate order |
| `Orchestrator.ScrapeThreaded` | enhanced_mzalendo_scraper.py:477-505 | the order-preserving map plus the None filter returns the successful records in candidate order |
| `Orchestrator.BothModes` | enhanced_mzalendo_scraper.py:90-105 | sequential and threaded runs return the same list, no longer than the candidate list |
| `Orchestrator.ResultCount` | enhanced_mzalendo_scraper.py:497-502 | every candidate is either returned or counted as a failed save |
| `Orchestrator.ResultsInCandidateOrder` | enhanced_mzalendo_scraper.py:497-502 | the result for a concatenation of candidates is the concatenation of the results |
| `Format.FormatLeader` | enhanced_mzalendo_scraper.py:767-814 | one record's projection; `Format.FormatIgnoresOtherKeys`, `FormatIdShape` and `FormatBareCandidate` state its meaning |
| `Format.FormatJsonOutput` | enhanced_mzalendo_scraper.py:761-818 | one formatted entry per record; `Format.FormatJsonOutputPointwise` states the order |
| `Format.FormatJsonOutputPointwise` | enhanced_mzalendo_scraper.py:761-818 | one formatted entry per record, in order: entry k formats record k |
| `Format.FormatIdShape` | enhanced_mzalendo_scraper.py:768 | a formatted id has no upper-case letter and no space, and formatting it again changes nothing |
| `Format.FormatIgnoresOtherKeys` | enhanced_mzalendo_scraper.py:767-814 | the projection does not depend on the keys it does not copy (constituency, URL, category, positions, committees, subcategory, phones) |
| `Format.FormatBareCandidate` | enhanced_mzalendo_scraper.py:767-791 | a record with no detail keys formats with empty id and party and no optional keys |

## Left out

- Network I/O: `requests.Session`, the headers, the 30-second timeout and the real `time.sleep`. The fetch is the `respond` parameter, and the sleeps are returned as durations.
- HTML parsing and CSS selection. Each selector result is an input text, optional text or list of texts, and each `a or b` selector fallback is folded into that input. `parse_politician_list_page` (110-165) and its constituency regex are HTML selection and are not modelled. The one selector fallback that changes behaviour (the list from `soup.select`, line 275) is modelled as `ExperienceList`.
- Regular expressions and Unicode. `\w`, `\d`, `\s`, `str.strip()` and `str.lower()` are approximated by their ASCII meaning.
- `Url.UrlJoin`: modelled only for the fixed base URL, whose path is empty, which is how the code uses it. Parameters after `;`, the stripping of leading C0 control characters and spaces, the removal of tabs and newlines, and the validation of an IPv6 netloc are not modelled.
- File writes and logging (`save_summary_data`, `all_leaders.json`, `statistics.json`, `os.makedirs`, the logging set-up). Persistence models only the file stems and county slugs, not the directory part of each path.
- `scrape_all` (556-630): it sequences I/O (category order, discovery of county-assembly links, the combined list). Its only rule, enriching the national-assembly and senate lists, is `Enrichment.EnrichCountyData`.
- The pagination traversal of `scrape_leaders` (69-86, 457-474): it is fetching and list-page parsing. The model starts from the candidate list.
- Aliasing: for a page that could not be fetched, `detailed_data` is the candidate dictionary itself, so tagging the subcategory also mutates the candidate. The model works on values.
- The thread pool: only the order-preserving result of `executor.map` is modelled.
- `Detail.ApprovalOf`: the rating is kept as the exact pair (sum of present, sum of totals). `round(ratio * 5, 1)` is floating point and is not modelled.
- `Statistics.GenerateStatistics`: attendance_average is the exact real mean. Its `round(..., 2)` is not modelled.
- The `projects` key: the scraper never sets it. It is kept as its length, which is all that statistics read. The formatter copies the list itself (lines 801-802), while `Format.FormatLeader` carries only its length; since the key is never set, the two agree on every record the scraper produces.
- `mzalendo_runner.py` is not part of this model. It is the command-line layer (argument parsing, printing, file reading).

## Findings

| source | as written | input that shows it | evidently intended | confidence | as-written member | corrected member |
|---|---|---|---|---|---|---|
| enhanced_mzalendo_scraper.py:180-187 | the de-duplicating `return` is indented inside `if not any('page=1' in url ...)`, so when a link to page 1 exists the function returns None, and the caller's `for page_url in pagination_urls` raises TypeError | pagination hrefs `?page=1`, `?page=2` | return the de-duplicated list in both cases, adding the national-assembly URL only when no link points at page 1 | high; not executed | `Pagination.PageOneLinkDropsEveryPage` | `Pagination.CorrectedPaginationLinksSound` |
