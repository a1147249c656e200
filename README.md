# Contract assets report, modelled in Dafny

The `contract_assets.py` script builds a lease report. It asks the
Freshservice API for the assets associated with contract 37, page by page
with `per_page=100`. Three memoising getters resolve each asset's department,
location and requester ids to names. The script then writes one CSV row per
asset, named `{YYYY-MM}_Lease_1996594_Assets.csv`, and attaches the file to a
ticket with a PUT that also sets priority 1. It deletes the local file only
when the PUT answers 200 or 201.

The repository holds two byte-identical copies of the script,
`asset_workflows/contract_assets.py` and `contract_assets.py`. The model is
written once, and every citation below points at the first copy.

Modules, one per part of the script:

- `Records`: the JSON records the script reads, with every `.get` field
  optional, and Python truthiness of an id.
- `Text`: `str.strip()` over the characters of Python's `str.isspace()`, and
  the requester display name.
- `Pagination`: the fetch loop (`FetchAssets`, a `while` loop) and its
  specification `Collected`. The server is the sequence of replies to pages
  1, 2, and so on. Any page past the end answers 200 with an empty array.
- `Resolution`: one getter call as a pure state transition (`Resolve`,
  `ResolveIn`), and the invariant `Coherent`. It says that an id is cached
  exactly when a successful lookup of it is logged, and that no id is looked
  up successfully twice.
- `Resolvers`: the class `ReferenceResolver`. It holds the three caches the
  getters update in place, plus a ghost log of the GETs they issue. Each
  getter is a method proved equal to `ResolveIn`.
- `Report`: the CSV loop (`WriteRows` and its body `AssembleRow`) and its
  specification `Rows`.
- `Naming`: the base URL, the report's file name and `os.path.basename`.
- `Attachment`: `update_ticket_with_attachment`, working on a `Disk` object
  that maps file names to their rows.
- `ContractAssets`: one whole run of the script, composed from the above.

Only an empty (or missing) `associated_assets` array, or a status other than
200, ends the fetch. A short page does not end it. So pages of 100 and 40
assets take three requests, not two: the third request is what finds the
empty page. The model follows the code (`Pagination.HundredThenForty`).

## Model

| member | source | states |
|---|---|---|
| Pagination.FetchAssets | asset_workflows/contract_assets.py:85-100 | The loop gathers exactly `Collected(pages)`. It issues StopIndex(pages)+1 requests, and request i is for contract 37, page i+1, per_page 100. |
| Pagination.Collected | asset_workflows/contract_assets.py:85-100 | The loop's specification: what it gathers is always a prefix of the concatenation of all the pages' arrays. |
| Pagination.StopIndex | asset_workflows/contract_assets.py:89-98 | The walk stops at the first page that is non-200 or empty. Every page before it continues the walk. |
| Pagination.ReplyTo | asset_workflows/contract_assets.py:90-91 | A page past the end of the listing answers with no assets, so it stops the walk. |
| Pagination.CollectedIsConcatBeforeStop | asset_workflows/contract_assets.py:85-100 | The gathered list is the in-order concatenation of the arrays of the pages before the first stopping page. |
| Pagination.StopDiscardsRest | asset_workflows/contract_assets.py:92-98 | A stopping page contributes nothing, and neither does any page after it. |
| Pagination.CollectedWithoutStop | asset_workflows/contract_assets.py:96-99 | When no page stops the walk, every page's array is appended, in order. |
| Pagination.StopIndexAt | asset_workflows/contract_assets.py:89-98 | The walk's length is the index of the first stopping page. |
| Pagination.FailedPageKeepsGathered | asset_workflows/contract_assets.py:92-94 | A non-200 page ends the walk without an error and keeps every record gathered before it. |
| Pagination.ShortPageContinues | asset_workflows/contract_assets.py:96-98 | A page shorter than per_page does not stop the walk: its assets are kept and the next page is requested. |
| Pagination.HundredThenForty | asset_workflows/contract_assets.py:85-100 | Pages of 100 and 40 assets, then an empty page, give 140 assets over 3 requests. |
| Records.NameField | asset_workflows/contract_assets.py:115 | `.get(kind, {}).get("name")`: an absent entity gives None, and a present entity gives its name field, absent or not. |
| Records.TruthyIsNonEmptyId | asset_workflows/contract_assets.py:108-109 | `Truthy`, the test `not id` negated, holds exactly for a present id that is neither 0 nor "". |
| Resolvers.NamedAnswer | asset_workflows/contract_assets.py:114-115 | A department or location reply yields its own status, and the entity's name when the entity is present, None otherwise. |
| Resolvers.RequesterAnswer | asset_workflows/contract_assets.py:144-148 | A requester reply yields its own status. A present requester yields `DisplayName` of its first and last names, and an absent one yields None. Any name it yields is non-empty with no whitespace at either end. |
| Text.Trim | asset_workflows/contract_assets.py:146-148 | The result starts and ends with no whitespace. It is a slice of the input, and everything cut away on either side is whitespace. |
| Text.Strip | asset_workflows/contract_assets.py:146-147 | `str.strip()` leaves no leading or trailing whitespace. It removes only whitespace, from the two ends. |
| Text.TrimOfTrimmed | asset_workflows/contract_assets.py:148 | A string with no whitespace at either end is left unchanged by strip. |
| Text.TrimIdempotent | asset_workflows/contract_assets.py:146-148 | Stripping twice is stripping once. |
| Text.TrimJoined | asset_workflows/contract_assets.py:148 | Two non-empty stripped parts joined by a space are left unchanged by the outer strip. |
| Text.TrimTrailing | asset_workflows/contract_assets.py:148 | A lone first name loses the trailing space of the join. |
| Text.TrimLeading | asset_workflows/contract_assets.py:148 | A lone last name loses the leading space of the join. |
| Text.DisplayName | asset_workflows/contract_assets.py:146-148 | The name is None exactly when both stripped parts are empty. Otherwise it is non-empty and has no whitespace at either end. It is "first last" when both parts are present, and the lone part, with no stray space, otherwise. |
| Resolution.Resolve | asset_workflows/contract_assets.py:107-153 | One getter call on its cache issues a GET exactly for a truthy id that is not cached. |
| Resolution.ResolveIn | asset_workflows/contract_assets.py:107-153 | A getter call on the whole state logs one lookup exactly when its id is truthy and missing from its own cache, and none otherwise. |
| Resolution.ResolveContract | asset_workflows/contract_assets.py:107-153 | A getter issues a GET exactly for a truthy, uncached id. A falsy id returns None. A cached id (a stored None included) returns the stored value. Only a 200 reply adds the id to the cache. No stored entry is ever changed. A failed GET returns None. |
| Resolution.ResolveInFrame | asset_workflows/contract_assets.py:103-153 | A getter returns what `Resolve` returns on its own cache, and it writes only that cache. The log grows by at most one lookup, of the getter's own kind. |
| Resolution.ResolveInReadsOwnCache | asset_workflows/contract_assets.py:107-153 | A getter reads only its own cache: states that agree on it give the same result and the same new cache. |
| Resolution.SuccessfulLookupIsFinal | asset_workflows/contract_assets.py:114-117 | After a successful lookup, every later call with that id is a cache hit. It returns the stored name and issues no GET. |
| Resolution.FailedLookupIsRetried | asset_workflows/contract_assets.py:118-120 | A failed lookup leaves the cache unchanged, and the next call with that id issues the GET again. |
| Resolution.ResolveInKeepsCoherent | asset_workflows/contract_assets.py:107-153 | Every getter call preserves the invariant: cache keys match the logged 200 lookups, and no id of a kind is looked up successfully twice. |
| Resolvers.ReferenceResolver.constructor | asset_workflows/contract_assets.py:103-105 | The three caches start empty, with nothing logged. |
| Resolvers.ReferenceResolver.DepartmentName | asset_workflows/contract_assets.py:107-120 | `get_department_name` is the `Department` transition of `ResolveIn` on the object's caches and log, and it keeps the invariant. |
| Resolvers.ReferenceResolver.LocationName | asset_workflows/contract_assets.py:122-135 | `get_location_name` is the `Location` transition of `ResolveIn`, and it keeps the invariant. |
| Resolvers.ReferenceResolver.RequesterName | asset_workflows/contract_assets.py:137-153 | `get_requester_name` is the `Requester` transition of `ResolveIn`, with the display name as the extracted value, and it keeps the invariant. |
| Report.ResolveField | asset_workflows/contract_assets.py:172-174 | `get_x(id) if id else None` gives None and leaves the state untouched when the id is falsy. |
| Report.Rows | asset_workflows/contract_assets.py:163-176 | There is one data row per asset. |
| Report.AssetRow | asset_workflows/contract_assets.py:164-176 | Each asset's row has exactly as many cells as the header. |
| Report.AssetRowDescribes | asset_workflows/contract_assets.py:164-176 | A row has six cells. The first three are the asset's display_id, asset_tag and name, and a missing or falsy foreign key gives a None cell. |
| Report.RowsDescribeAssets | asset_workflows/contract_assets.py:163-176 | Row i of the report describes asset i, for every i, so the rows follow `all_assets` order. |
| Report.FieldLookups | asset_workflows/contract_assets.py:172-174 | A guarded getter call issues at most one lookup of its own kind, and none for a falsy id. |
| Report.AssetRowLookups | asset_workflows/contract_assets.py:168-174 | An asset's row issues lookups only of the kinds whose id it carries. A missing or falsy foreign key triggers no lookup. |
| Report.FieldKeepsCoherent | asset_workflows/contract_assets.py:172-174 | A guarded getter call keeps the caches coherent with the log. |
| Report.RowsKeepCoherent | asset_workflows/contract_assets.py:163-176 | Writing all the rows keeps the caches coherent with the log. |
| Report.EachIdFetchedOnce | asset_workflows/contract_assets.py:103-176 | Over a run from empty caches, no id of a kind is looked up successfully twice, however many assets refer to it. |
| Report.AssembleRow | asset_workflows/contract_assets.py:164-176 | One pass of the loop body builds the row `AssetRow` specifies, and leaves the caches and log in the state it specifies. |
| Report.WriteRows | asset_workflows/contract_assets.py:159-176 | The table is the fixed six-column header followed by `Rows` of the assets. The resolver ends in the state `Rows` computes. |
| Naming.BaseUrl | asset_workflows/contract_assets.py:72-75 | The URL starts with "http" and ends with the domain. It equals the domain exactly when the domain starts with "http", and otherwise it is "https://" followed by the domain. |
| Naming.BaseUrlIdempotent | asset_workflows/contract_assets.py:72-75 | Normalising a normalised URL changes nothing. |
| Naming.PadDigits | asset_workflows/contract_assets.py:157 | `%Y`/`%m` render the number in exactly the given width, in decimal digits. |
| Naming.PadDigitsValue | asset_workflows/contract_assets.py:157 | The padded digits read back as the number. |
| Naming.StartsWith | asset_workflows/contract_assets.py:72 | `s.startswith(prefix)` holds exactly when the prefix fits in `s` and agrees with it character by character. |
| Naming.CsvFileName | asset_workflows/contract_assets.py:156-157 | The file name is 25 characters longer than the lease number: `YYYY-MM`, `_Lease_` and `_Assets.csv` around it. |
| Naming.CsvFileNameRoundTrip | asset_workflows/contract_assets.py:156-157 | The file name has the shape `YYYY-MM_Lease_{lease}_Assets.csv`. The year, month and lease number read back from it are the ones it was built from. |
| Naming.SlashEnd | asset_workflows/contract_assets.py:204 | The position after the last '/' has no '/' after it and a '/' just before it, when there is one. |
| Naming.Basename | asset_workflows/contract_assets.py:204 | The basename is the suffix of the path after its last '/', and it holds no '/'. |
| Naming.BasenameOfPlainName | asset_workflows/contract_assets.py:204 | A name without '/' is its own basename. |
| Naming.CsvFileNameIsPlain | asset_workflows/contract_assets.py:156-158 | The report's file name holds no '/', so the attachment carries exactly that name. |
| Naming.ReportFileName | asset_workflows/contract_assets.py:156-158 | The report's file name for the run's year and month uses lease 1996594, and it is its own basename. |
| Attachment.UpdateSucceeded | asset_workflows/contract_assets.py:230 | A status counts as success exactly when it is one of 200 and 201. |
| Attachment.UpdateResult | asset_workflows/contract_assets.py:192-239 | The update counts as done exactly when the file was read and the PUT answered 200 or 201. A read failure and a raised PUT each end it early. Any other status is a rejection with that status. |
| Attachment.UpdateTicketWithAttachment | asset_workflows/contract_assets.py:183-239 | The PUT is sent exactly when the file exists. It carries priority "1", the file's basename, its content and `application/octet-stream`. The file is deleted exactly when the update succeeds; otherwise the disk is unchanged. |
| ContractAssets.BuildReport | asset_workflows/contract_assets.py:85-176 | The table is the header plus the rows of `Collected(pages)`, resolved from empty caches. StopIndex(pages)+1 pages are requested, request i for contract 37, page i+1, per_page 100. |
| ContractAssets.Run | asset_workflows/contract_assets.py:72-243 | A whole run: the base URL is normalised, the report is written under the dated file name and attached with priority "1". That file is gone afterwards exactly when the PUT answered 200 or 201, and otherwise holds the report. |

## Left out

- The HTTP client, JSON decoding, `argparse`, the `credentials` module and every `print`. The API is modelled as reply values: a sequence of page replies for the listing, and functions from (row index, id) to a reply for the by-id lookups. A retried lookup can therefore get a different answer. The PUT's ending is a parameter.
- Python dictionary key equality across types (`1 == 1.0 == True`). An id is either an integer or a string, and the two never compare equal.
- The `csv` writer's quoting and escaping. A file's content is the sequence of its rows of cells, and a None cell stands for the empty field the writer emits.
- `MultipartEncoder` boundaries, and the Base64 `Authorization` header (section 2 of RFC 7617, section 4 of RFC 4648). Only the multipart fields are modelled.
- `datetime.now()`. The year and month are parameters.
- Naming.CsvFileName: requires a year from 1000 to 9999, because how `strftime('%Y')` pads years below 1000 depends on the platform.
- Attachment.UpdateTicketWithAttachment: reading the file fails only when it does not exist. Other read errors and a failing `os.remove` are not modelled, and the file's bytes are its rows.
- ContractAssets.Run: writing the CSV (the `open(..., "w")` at line 159) cannot fail in the model. A write error, which would end the script before any PUT, is not modelled.
- A GET that raises (lines 91, 113, 128, 143), or a 200 reply whose body is not JSON (`.json()` at lines 95, 115, 130, 145), ends the script. During the fetch, no CSV exists yet. During the row loop, a partly written CSV is left behind and no PUT is sent. In the model every GET returns a reply with a decoded body, so this crash is not modelled.
- Pagination.ReplyTo: the listing is finite: every page past the given replies answers 200 with an empty array. A server that never answers an empty or non-200 page keeps the `while True` loop running forever, and that endless walk is not modelled.
- Endpoints are reduced to their parameters. A page request is its contract, page and page size, and the PUT is its ticket and fields. The base URL is computed by `Naming.BaseUrl`, but no request carries it.
- Requester names: `first_name` and `last_name` are strings, and an absent one is "". A JSON `null` there, which makes `.strip()` raise, is not modelled. Neither is a `null` `requester` object, on which `.get` raises.
- Records.NameField: a `null` `department` or `location` object is read as an absent one. In the script, `.get("name")` on `None` raises at line 115 or 130. That ends the script inside the `with open(...)` block, leaving a partly written CSV and sending no PUT. This crash is not modelled.
- `contract_assets.py` at the repository root is a byte-identical copy of `asset_workflows/contract_assets.py`, and it is not modelled a second time.
