# Parts catalog: a verified model

The catalog serves three Excel workbooks (engines, filters, spark plugs) through
a small search API, and three browser pages query it. This project models the
logic under the I/O:

- **Search backend** (`BackendSearch`, `BackendCatalog`):
  - `normalize`: ASCII lower-casing plus keeping `[a-z0-9]`.
  - The row filter, which skips the `source` and `sheet` columns.
  - Python-style page slicing and `has_more`.
  - `flatten_excel`, which tags every row with its source and sheet.
  - The start-up loader and the `excel_data` cache as a class, plus `refresh_file`.
  - The files on disk are a parameter: a map from path to a workbook's sheets, or to a file pandas cannot read.
- **Client result handling** (`ClientResults`):
  - Requests and responses of the search endpoints.
  - Grouping by `sheet` with a fallback bucket, as a loop with invariants.
  - Title and field selection for result cards.
- **The three pages** (`PartsCategoriesPage`, `EnginesPage`, `ServicePartsPage`):
  - Each page is a class whose fields are the component's state.
  - Methods are the events: a keystroke, the debounce elapsing, a click, a fetch starting, a fetch settling.
  - The server is a function parameter `Request -> Response`.
  - An asynchronous fetch is split into a method that starts it and a method that settles it. Fetches may settle in any order.
  - A fetch captures the state it closes over, e.g. the engines list that a later page is appended to.
  - The AbortController of the service parts page is a generation token: `controller` counts controllers created, and `inFlight` holds the tokens of unsettled fetches.
- **Upload naming** (`UploadRoutes`):
  - Node's `path.basename`/`path.extname` on the uploaded name.
  - The stored `.xlsx` name and the lower-cased refresh key.
  - The handler's replies.
  - How the refresh key meets the backend's `EXCEL_FILES`: the path string the reload opens equals the path string multer stored only when the name's stem is already lower case.
- **Category title** (`CategoryPage`): every `-` becomes a space.

Shared helpers: `Records` (a record is an ordered list of fields; JS/Python truthiness), `Seqs` (filter and flatten) and `Text` (lower-casing, substring search, JavaScript `trim`, `split('/').pop()`).

## Model

| member | source | states |
|---|---|---|
| BackendSearch.NormalizeText | backend/main.py:45 | the output is no longer than the input and holds only `a-z`/`0-9` |
| BackendSearch.Normalize | backend/main.py:42-45 | a missing cell normalizes to `""`; a string cell to its normalized text |
| BackendSearch.NormalizeIsFilteredLower | backend/main.py:45 | normalizing is lower-casing followed by keeping exactly the `[a-z0-9]` characters, in order |
| BackendSearch.NormalizeAppend | backend/main.py:45 | normalizing distributes over concatenation |
| BackendSearch.NormalizeFixesNormalText | backend/main.py:45 | text already in `[a-z0-9]` is left unchanged |
| BackendSearch.NormalizeIdempotent | backend/main.py:43-45 | normalizing a normalized value changes nothing |
| BackendSearch.FilterRows | backend/main.py:55-64 | a falsy `q` keeps every row unchanged; otherwise a row is kept iff one of its non-`source`/`sheet` cells contains `normalize(q)` |
| BackendSearch.FilterRowsAppend | backend/main.py:57-64 | the filter distributes over concatenation, so kept rows keep their relative order |
| BackendSearch.EmptyNormalQueryKeepsAll | backend/main.py:56-59 | a non-empty `q` that normalizes to `""` keeps every row that has a searchable cell |
| BackendSearch.TagOnlyRowNeverMatches | backend/main.py:59-61 | a row with only `source`/`sheet` cells never matches a non-empty `q` |
| BackendSearch.SliceBound | backend/main.py:72 | Python's clamping of a slice bound, including negative bounds |
| BackendSearch.PySlice | backend/main.py:72 | Python's `s[start:end]`: never longer than the sequence |
| BackendSearch.PageStart | backend/main.py:68 | the first row of a page `page >= 1` is a non-negative index |
| BackendSearch.PageEnd | backend/main.py:69 | a page ends `page_size` rows after it starts |
| BackendSearch.Search | backend/main.py:66-77 | `total` is the filtered count; `has_more` iff the page end `page*page_size` is below `total`; for `page >= 1` the results are filtered rows `[(page-1)*page_size, min(page*page_size, total))`, at most `page_size` of them |
| BackendSearch.ZeroPage | backend/main.py:68-76 | `page=0` gives a negative start; Python's slice makes the page empty while `has_more` reports any match |
| BackendSearch.PagesTileMatches | backend/main.py:67-72 | pages 1..n concatenated are the first `min(n*page_size, total)` filtered rows |
| BackendCatalog.TagRow | backend/main.py:28-29 | `source` and `sheet` are set; every other column is unchanged |
| BackendCatalog.FlattenExcel | backend/main.py:24-31 | a loop over the sheets; no sheets is the `concat` error, otherwise the tagged sheets concatenated in order |
| BackendCatalog.TotalRowsIsSumLengths | backend/main.py:24-31 | the flattened table has as many rows as all sheets together |
| BackendCatalog.FlattenedLength | backend/main.py:31 | the flattened length is the sum of the sheet row counts |
| BackendCatalog.FlattenedAt | backend/main.py:26-31 | row `j` of sheet `i` sits right after the rows of the earlier sheets, tagged |
| BackendCatalog.FlattenedRowsTagged | backend/main.py:28-29 | every flattened row has `source = source_label` and the name of one of the sheets |
| BackendCatalog.LookupFile | backend/main.py:82-86 | a key is found iff it is one of the three configured keys |
| BackendCatalog.ExcelFilesLookup | backend/main.py:82-86 | each configured entry is found under its own key, and keys are distinct |
| BackendCatalog.ExcelFilePath | backend/main.py:83-85 | every configured workbook lives at `data/<key>.xlsx` |
| BackendCatalog.ExcelFilePathAt | backend/main.py:83-85 | each entry's path is `data/` followed by its key and `.xlsx` |
| BackendCatalog.ExcelFilesDistinct | backend/main.py:82-86 | the configured keys are pairwise distinct and each entry is found under its key |
| BackendCatalog.LoadInto | backend/main.py:34-39 | loading a workbook that loads sets its key to the new table; every other key is untouched; a failed load changes nothing |
| BackendCatalog.LoadedKeysCached | backend/main.py:89-92 | a route is registered only after its table is in the cache |
| BackendCatalog.LoadedCacheAgrees | backend/main.py:88-94 | after loading files with distinct keys, each key holds exactly what loading its file yields, and the cache has no other key |
| BackendCatalog.CatalogBackend.LoadExcelData | backend/main.py:34-39 | a missing path raises "file not found"; an existing file pandas cannot read raises pandas' own error; a readable workbook without sheets raises "no objects to concatenate"; a failed load leaves the cache alone and a successful one replaces the key's table with the flattened workbook; the routes are never changed |
| BackendCatalog.CatalogBackend.constructor | backend/main.py:88-94 | start-up loads the files in order: the cache is the result of loading each file in turn, so it holds what loaded, and exactly the loaded keys get a route, in order |
| BackendCatalog.CatalogBackend.Refresh | backend/main.py:97-106 | an unknown key answers 404 and leaves the cache unchanged; a known key answers 200 with the new row count, or 500 with the cache unchanged and the exception text as its `error`: `File not found: <path>` for a missing file, pandas' exception text for a file it cannot read (an upload stored under `.xlsx` that is not a workbook), `No objects to concatenate` for a workbook without sheets |
| BackendCatalog.LoadFailure | backend/main.py:34-37 | the failure a load raises: file not found exactly for a missing path, pandas' read error with its text exactly for an unreadable file |
| BackendCatalog.ErrorTextInjective | backend/main.py:35-36 | the backend's own failures give distinct `error` texts, so a 500 reply names the missing file |
| BackendCatalog.CatalogBackend.Route | backend/main.py:48-79 | no route for an unloaded key at start-up; a registered route answers the search over the cached table |
| Records.Get | frontend/src/components/PartsCategoriesPage.jsx:56 | a property read: the value of the first field with that name, or missing when there is none |
| Records.Set | frontend/src/components/PartsCategoriesPage.jsx:55-56 | `{...item, key: v}`: the key reads `v`, every other key reads as before; an existing field keeps its place, a new one goes last; unique field names stay unique |
| Records.OverwriteSameValue | frontend/src/components/PartsCategoriesPage.jsx:55-56 | writing back the value a field already holds leaves the record as it was |
| Text.Lower | backend/main.py:45 | same length, each character ASCII-lower-cased |
| Text.Contains | backend/main.py:59 | Python's `in` on strings: the needle occurs at some index of the haystack |
| Text.TrimStartSpec | frontend/src/components/PartsCategoriesPage.jsx:29 | the removed prefix is whitespace; the rest starts with a non-whitespace character |
| Text.TrimEndSpec | frontend/src/components/PartsCategoriesPage.jsx:29 | the removed suffix is whitespace; the rest ends with a non-whitespace character |
| Text.Trim | frontend/src/components/PartsCategoriesPage.jsx:29 | the trimmed text is empty or starts and ends with non-whitespace |
| Text.TrimIsInfix | frontend/src/components/ServicePartsPage.jsx:19 | the trimmed text is the infix left after dropping a whitespace run from each end |
| Text.TrimIdempotent | frontend/src/components/ServicePartsPage.jsx:19 | trimming twice is trimming once |
| Text.TrimEmptyIff | frontend/src/components/PartsCategoriesPage.jsx:29 | the debounced term is empty iff the input is all whitespace |
| Text.LastSegment | frontend/src/components/PartsCategoriesPage.jsx:56 | the text after the last `/` (all of it when there is none); it holds no `/`, and it is non-empty when the URL does not end in `/` |
| ClientResults.QueryParam | frontend/src/components/EnginesPage.jsx:17-18 | `q` is sent iff the search term is non-empty, and then it is the term |
| ClientResults.GroupOrderDistinct | frontend/src/components/PartsCategoriesPage.jsx:71-78 | every group name appears once |
| ClientResults.GroupOrderMembers | frontend/src/components/PartsCategoriesPage.jsx:72-76 | a group exists iff some item's `sheet` (or the fallback) names it |
| ClientResults.GroupOrderEmptyIff | frontend/src/components/EnginesPage.jsx:89 | there are no groups iff there are no items |
| ClientResults.GroupBySheet | frontend/src/components/EnginesPage.jsx:58-63 | the groups are the items' `sheet` values (falsy ones go to the fallback bucket); each group holds its items in their original order; group sizes sum to the item count |
| ClientResults.FirstTruthyIndex | frontend/src/components/EnginesPage.jsx:103 | the position of the first key with a truthy value, none before it truthy; none when no key is truthy |
| ClientResults.FirstTruthyField | frontend/src/components/EnginesPage.jsx:103 | the first truthy field of an ordered key list, else the default |
| ClientResults.ShownFields | frontend/src/components/PartsCategoriesPage.jsx:93-98 | every shown field is a field of the item other than `sheet`/`source` (and non-empty where the page hides falsy values), and every such field is shown |
| ClientResults.ShownFieldsAppend | frontend/src/components/PartsCategoriesPage.jsx:93-98 | fields are shown in the item's field order: the shown fields of two parts put together are those of the first followed by those of the second |
| ClientResults.GroupKey | frontend/src/components/PartsCategoriesPage.jsx:73 | an item is filed under its `sheet` when that is non-empty, otherwise under the fallback; a non-empty fallback never gives an empty group name |
| PartsCategoriesPage.ApiRoutes | frontend/src/components/PartsCategoriesPage.jsx:9-12 | every category has at least one endpoint, and no endpoint is empty or ends in `/` |
| PartsCategoriesPage.TagOrigin | frontend/src/components/PartsCategoriesPage.jsx:54-57 | a truthy `sheet` is kept; otherwise `sheet` becomes the last `/`-segment of the endpoint; no other field changes |
| PartsCategoriesPage.TagOriginKeepsTaggedItem | frontend/src/components/PartsCategoriesPage.jsx:56 | an item that already names its sheet comes back unchanged |
| PartsCategoriesPage.TagAll | frontend/src/components/PartsCategoriesPage.jsx:54 | tagging keeps the number of items |
| PartsCategoriesPage.ServicePartsMerge | frontend/src/components/PartsCategoriesPage.jsx:49-60 | for Service Parts the merged list is the tagged spark plugs then the tagged filters |
| PartsCategoriesPage.MergeLength | frontend/src/components/PartsCategoriesPage.jsx:60 | the merged length is the sum of the endpoint result counts |
| PartsCategoriesPage.MergeResults | frontend/src/components/PartsCategoriesPage.jsx:49-60 | the merge fails exactly when some endpoint's request is not answered OK |
| PartsCategoriesPage.SearchRequest | frontend/src/components/PartsCategoriesPage.jsx:39-43 | every endpoint is asked with the debounced term as `q`, page 1 and page size 30 |
| PartsCategoriesPage.CardFields | frontend/src/components/PartsCategoriesPage.jsx:93-98 | a card lists exactly the item's non-empty fields other than `sheet` and `source` |
| PartsCategoriesPage.TagAllNamesSheet | frontend/src/components/PartsCategoriesPage.jsx:56 | after tagging with a URL not ending in `/`, every item has a truthy `sheet` |
| PartsCategoriesPage.MergedItemsNameSheet | frontend/src/components/PartsCategoriesPage.jsx:54-60 | every merged item has a truthy `sheet`, so the `'Other'` bucket is never used for merged results |
| PartsCategoriesPage.LabelIndex | frontend/src/components/PartsCategoriesPage.jsx:81-83 | the index of the first truthy field whose key is not `sheet`/`source`/`Qty`/`QTY`/`NOTE`, or none |
| PartsCategoriesPage.CardLabel | frontend/src/components/PartsCategoriesPage.jsx:81-90 | the label is the first such field's value; `'Unnamed Part'` when there is none |
| PartsCategoriesPage.NoMatchShownIff | frontend/src/components/PartsCategoriesPage.jsx:140-155 | the "no match" message shows iff a category is open, the debounced term is non-empty, nothing is loading and there are no results |
| PartsCategoriesPage.PartsCategoriesPage.constructor | frontend/src/components/PartsCategoriesPage.jsx:20-24 | no category, empty terms, no results, not loading |
| PartsCategoriesPage.PartsCategoriesPage.Mount | frontend/src/components/PartsCategoriesPage.jsx:27-69 | the first render arms the debounce and runs the fetch effect |
| PartsCategoriesPage.PartsCategoriesPage.Type | frontend/src/components/PartsCategoriesPage.jsx:132 | the raw term changes; a changed term re-arms the debounce; nothing else changes |
| PartsCategoriesPage.PartsCategoriesPage.Quiesce | frontend/src/components/PartsCategoriesPage.jsx:27-32 | the debounced term becomes the trimmed input; only a changed debounced term re-runs the fetch effect |
| PartsCategoriesPage.PartsCategoriesPage.SelectCategory | frontend/src/components/PartsCategoriesPage.jsx:162 | the category is set; choosing a different one re-runs the fetch effect |
| PartsCategoriesPage.PartsCategoriesPage.FetchEffect | frontend/src/components/PartsCategoriesPage.jsx:35-46 | no request without a category or with an empty debounced term; otherwise the category's endpoints are asked, results are cleared and loading is set |
| PartsCategoriesPage.PartsCategoriesPage.Settle | frontend/src/components/PartsCategoriesPage.jsx:48-65 | all endpoints OK: results become the merged list; any failure leaves results as they were (cleared at the start); loading ends either way |
| PartsCategoriesPage.PartsCategoriesPage.Back | frontend/src/components/PartsCategoriesPage.jsx:119-123 | the category is cleared, the term becomes `''` and the results `[]` |
| EnginesPage.CardTitle | frontend/src/components/EnginesPage.jsx:103 | `PartNumber`, else `Engine`, else `OE`, else `'No title'`, the first truthy one |
| EnginesPage.NoResultsShownIff | frontend/src/components/EnginesPage.jsx:89-128 | "No matching results found." shows iff the list is empty |
| EnginesPage.EnginesRequest | frontend/src/components/EnginesPage.jsx:17-18 | the request names `/api/engines`, the page and page size 30, and carries `q` exactly when the term is non-empty |
| EnginesPage.CardFields | frontend/src/components/EnginesPage.jsx:107-108 | a card lists exactly the item's fields other than `sheet` and `source`, empty ones included |
| EnginesPage.EnginesPage.constructor | frontend/src/components/EnginesPage.jsx:6-10 | empty term and list, page 1, `hasMore`, not loading |
| EnginesPage.EnginesPage.Mount | frontend/src/components/EnginesPage.jsx:35-37 | the first render requests page 1 of the current term |
| EnginesPage.EnginesPage.StartFetch | frontend/src/components/EnginesPage.jsx:15-21 | loading is set and the request carries the term, `page` and `page_size` 30; the fetch remembers the list it closes over |
| EnginesPage.EnginesPage.Settle | frontend/src/components/EnginesPage.jsx:22-32 | page 1 replaces the list; a later page appends to the captured list; `hasMore` and `page` follow the reply; a failure changes none of them; loading ends either way |
| EnginesPage.EnginesPage.HandleSearch | frontend/src/components/EnginesPage.jsx:45-49 | every keystroke sets the term and requests page 1 of it |
| EnginesPage.EnginesPage.LoadMore | frontend/src/components/EnginesPage.jsx:53-55 | a request for `page + 1` is made iff not loading and `hasMore`; otherwise nothing changes |
| ServicePartsPage.Asked | frontend/src/components/ServicePartsPage.jsx:36-43 | at most one request per endpoint |
| ServicePartsPage.AskedSpec | frontend/src/components/ServicePartsPage.jsx:36-40 | requests go out in endpoint order; each one but the last was answered OK; the loop stops early only after a failure |
| ServicePartsPage.ThenAssoc | frontend/src/components/ServicePartsPage.jsx:42 | pushing results in two steps is pushing them at once |
| ServicePartsPage.LoopStep | frontend/src/components/ServicePartsPage.jsx:36-43 | one iteration of the endpoint loop, for the outcome and for the requests asked |
| ServicePartsPage.FetchSequential | frontend/src/components/ServicePartsPage.jsx:34-43 | the loop's outcome is the fail-fast concatenation, and the requests it issues are exactly those asked |
| ServicePartsPage.SequentialSpec | frontend/src/components/ServicePartsPage.jsx:34-43 | `Sequential`, the outcome of the endpoint loop, succeeds iff every endpoint answers OK, and then it is their results concatenated in endpoint order |
| ServicePartsPage.PartsRequest | frontend/src/components/ServicePartsPage.jsx:31-32 | each endpoint is asked for the page with page size 30, carrying `q` exactly when the term is non-empty |
| ServicePartsPage.CardFields | frontend/src/components/ServicePartsPage.jsx:93-94 | a card lists exactly the item's non-empty fields other than `source` and `sheet` |
| ServicePartsPage.NoExactMatchWhileFetchingTrace | frontend/src/components/ServicePartsPage.jsx:52-54 | as written: after the aborted mount fetch settles, "No exact match found." shows while page 1 of the new term is still in flight |
| ServicePartsPage.ServicePartsPage.CurrentFetchHidesNoExactMatch | frontend/src/components/ServicePartsPage.jsx:118-122 | when `loading` follows the current fetch, as the corrected settle keeps it, the message never shows while that fetch is in flight |
| ServicePartsPage.SparkPlugFailureSkipsFilters | frontend/src/components/ServicePartsPage.jsx:40 | when spark plugs fail, filters are never asked and the page fails |
| ServicePartsPage.CardTitle | frontend/src/components/ServicePartsPage.jsx:90 | `Description`, else `Part Number`, else `'Unnamed'` |
| ServicePartsPage.ServicePartsPage.constructor | frontend/src/components/ServicePartsPage.jsx:6-13 | empty terms and list, page 1, `hasMore`, not loading, no controller |
| ServicePartsPage.ServicePartsPage.Mount | frontend/src/components/ServicePartsPage.jsx:17-59 | the first render arms the debounce and fetches page 1 of the debounced term |
| ServicePartsPage.ServicePartsPage.StartFetch | frontend/src/components/ServicePartsPage.jsx:25-29 | a new controller supersedes the old one; the fetch carries its token; loading is set |
| ServicePartsPage.ServicePartsPage.Settle | frontend/src/components/ServicePartsPage.jsx:25-55 | as written: an aborted fetch changes neither list, page nor `hasMore` and reports no error, but it still clears loading; the current fetch applies its outcome |
| ServicePartsPage.ServicePartsPage.SettleCorrected | frontend/src/components/ServicePartsPage.jsx:48-54 | an aborted fetch changes nothing, so loading is true exactly while the current fetch is in flight |
| ServicePartsPage.ServicePartsPage.Apply | frontend/src/components/ServicePartsPage.jsx:45-47 | success: page 1 replaces, a later page appends, `hasMore` iff the page is non-empty, `page` becomes `pageNum`; failure: nothing changes |
| ServicePartsPage.ServicePartsPage.Type | frontend/src/components/ServicePartsPage.jsx:83 | the raw term changes; a changed term re-arms the debounce |
| ServicePartsPage.ServicePartsPage.Quiesce | frontend/src/components/ServicePartsPage.jsx:17-23 | as written: the debounced term becomes the trimmed input and `page` resets to 1; only a changed debounced term fetches page 1 |
| ServicePartsPage.ServicePartsPage.QuiesceCorrected | frontend/src/components/ServicePartsPage.jsx:17-23 | `page` resets only when the debounced term changes, together with the page 1 fetch |
| ServicePartsPage.ServicePartsPage.LoadMore | frontend/src/components/ServicePartsPage.jsx:61-65 | `page + 1` is requested iff not loading and `hasMore`; never while the current fetch is in flight when loading tracks it |
| ServicePartsPage.StubPage | frontend/src/components/ServicePartsPage.jsx:36-43 | with a server answering one row per endpoint, a page has two rows |
| ServicePartsPage.AbortedFetchTrace | frontend/src/components/ServicePartsPage.jsx:52-54 | a trace where the superseded fetch settles: loading is false with the current fetch in flight, Load More runs, and the list ends as page 2 without page 1 |
| ServicePartsPage.AbortedFetchTraceCorrected | frontend/src/components/ServicePartsPage.jsx:52-54 | the same trace with the corrected settle: Load More is refused, loading stays on and "No exact match found." stays hidden |
| ServicePartsPage.BrowseFirstPage | frontend/src/components/ServicePartsPage.jsx:17-59 | mounting, settling and the debounce firing leave page 1 listed, with the as-written or the corrected settle and debounce |
| ServicePartsPage.BrowseTwoPages | frontend/src/components/ServicePartsPage.jsx:57-65 | then one Load More shows pages 1 and 2 in order, with either settle |
| ServicePartsPage.RepeatedPageTrace | frontend/src/components/ServicePartsPage.jsx:17-23 | as written: typing and erasing within the debounce resets `page` without a fetch, so the next Load More appends page 2 again |
| ServicePartsPage.RepeatedPageTraceCorrected | frontend/src/components/ServicePartsPage.jsx:17-23 | the same trace with the corrected debounce appends page 3 |
| UploadRoutes.StripTrailingSlashes | backend/routes/uploadRoutes.js:16 | the name without its trailing `/` characters, as `path.basename` drops them |
| UploadRoutes.BaseName | backend/routes/uploadRoutes.js:16 | the last path component, holding no `/` |
| UploadRoutes.LastDot | backend/routes/uploadRoutes.js:16 | the index of the last `.`, or none |
| UploadRoutes.ExtOf | backend/routes/uploadRoutes.js:16 | `path.extname` of a component: empty, or a proper suffix starting with its only `.` |
| UploadRoutes.ExtName | backend/routes/uploadRoutes.js:16 | `path.extname` of a path: empty, or a proper suffix of its last component that starts with its only `.` |
| UploadRoutes.StemOf | backend/routes/uploadRoutes.js:16 | the stem and the extension rebuild the component; the stem is empty only for an empty name |
| UploadRoutes.Stem | backend/routes/uploadRoutes.js:16 | `path.basename(name, path.extname(name))`: the stem followed by the extension is the basename |
| UploadRoutes.StoredName | backend/routes/uploadRoutes.js:15-18 | the stored name ends in `.xlsx` and is the stem before it |
| UploadRoutes.RefreshKey | backend/routes/uploadRoutes.js:26 | the same stem, lower-cased |
| UploadRoutes.HandleUpload | backend/routes/uploadRoutes.js:23-35 | no file: 400 "No file uploaded" and no notification; a file: the refresh of its key is requested and the reply is 200 "Uploaded and refreshed <name>" |
| UploadRoutes.NotifyFailureIgnored | backend/routes/uploadRoutes.js:29-35 | a failed notification does not change the reply |
| UploadRoutes.NoExtensionKept | backend/routes/uploadRoutes.js:16-17 | a name with no extension is stored as itself plus `.xlsx` |
| UploadRoutes.OnlyLastExtensionRemoved | backend/routes/uploadRoutes.js:16 | only the last extension is removed, also for a stem that starts with `.` (`.profile.csv` is stored as `.profile.xlsx`) |
| UploadRoutes.StemOfSplit | backend/routes/uploadRoutes.js:16 | a stem followed by one extension splits back into the two |
| UploadRoutes.ExampleCsv | backend/routes/uploadRoutes.js:15-18 | `Engines Master.csv` is stored as `Engines Master.xlsx` |
| UploadRoutes.ExampleTwoDots | backend/routes/uploadRoutes.js:16 | `a.b.csv` is stored as `a.b.xlsx` |
| UploadRoutes.ExampleNoDot | backend/routes/uploadRoutes.js:16-17 | `Filters` is stored as `Filters.xlsx` |
| UploadRoutes.ExampleDotFile | backend/routes/uploadRoutes.js:16 | a leading dot is not an extension: `.env` is stored as `.env.xlsx` |
| UploadRoutes.ExampleKey | backend/routes/uploadRoutes.js:26 | `Engines.xlsx` refreshes key `engines` |
| UploadRoutes.RefreshReadsStoredFile | backend/routes/uploadRoutes.js:17-30 | when the key names a catalog workbook, the path the backend reloads (`data/<key>.xlsx`) equals the stored path (`data/` + stored name) iff the stem is already lower case |
| CategoryPage.CategoryTitle | frontend/src/components/CategoryPage.jsx:9-12 | same length; each `-` becomes a space and every other character is kept |
| CategoryPage.TitleHasNoDash | frontend/src/components/CategoryPage.jsx:9 | the title has no `-` |
| CategoryPage.TitleKeepsDashFreeName | frontend/src/components/CategoryPage.jsx:9 | a name without `-` is its own title |
| CategoryPage.TitleIdempotent | frontend/src/components/CategoryPage.jsx:9 | the transform is idempotent |
| CategoryPage.Example | frontend/src/components/CategoryPage.jsx:9 | `spark-plugs` becomes `spark plugs` |

## Left out

- Network, disk and process I/O. The following are parameters or are not modelled: `fetch`, `pd.read_excel` (a map from path to the workbook's sheets, or to the error text of a file pandas cannot read, stands in), multer's disk storage and `fs.mkdirSync`, console and print logging, CORS, `uvicorn` start-up, and the `/api/test` health check.
- `Promise.all` parallelism on the parts categories page. All endpoints are answered by one server function, and the page settles once with the combined outcome.
- React scheduling. Timers are explicit events (`Quiesce` is "300 ms passed without a keystroke"), and each state update takes effect at once. How React batches updates and re-renders is not modelled.
- Rendering, skeleton placeholders, icons, the scroll-to-top button and `navigate(-1)` are user interface only. `frontend/src/components/app.js` is a route table with no logic and is not part of this model.
- pandas column union in `pd.concat`. When sheets have different columns, pandas fills the missing ones with NaN. The model keeps each row's own columns. These differ only in NaN cells, which normalize to `""`. One consequence: with a non-empty `q` that normalizes to `""`, the backend also keeps a row whose only own cells are `source`/`sheet`, as long as NaN columns from other sheets exist. `BackendSearch.EmptyNormalQueryKeepsAll` requires a searchable cell for this reason.
- NaN/inf replacement and `str()` of numeric cells are float handling. Cell values are strings or missing.
- Lower-casing covers ASCII only. Python's `str.lower` and JavaScript's `toLowerCase` on other scripts are not modelled.
- FastAPI's validation of `page` and `page_size` (the 422 replies) is not modelled. Any integers are accepted.
- The defaults `page=1` and `page_size=30` of `GET /api/{key}` are not modelled: `Route` takes both as arguments, because every modelled page sends both.
- UploadRoutes.RefreshReadsStoredFile: compares path strings only. It takes multer's `./data` and pandas' `data/` to be the same directory (the two servers started in the same working directory) and the file system to be case-sensitive; on a case-insensitive one, a stem with upper-case letters is also found.
- The URL encoding of the refresh key and the host part of URLs are not modelled.
- `categoryName` is taken to be present. The crash on an undefined route parameter is not modelled.
- ClientResults.GroupBySheet: `order` is the order in which groups were first seen. `Object.entries` gives that order only for sheet names that are not integer-like (integer-like keys are enumerated first, ascending). The model does not state group order for integer-like sheet names. Keys inherited from `Object.prototype` (e.g. a sheet named `constructor`) are not modelled either.
- EnginesPage.EnginesPage.Settle: a non-OK reply is treated like a failed fetch, leaving the list unchanged. The source does not check `res.ok`, so it then parses the error body and stores its missing `results` (undefined) on page 1, or throws on later pages. The body of an error reply is not modelled.
- ServicePartsPage.ServicePartsPage.Settle: for an aborted fetch, which requests were sent before the abort does not matter to the state and is not tracked. With the fetch error path (`console.error`) dropped, an aborted fetch and a failed one differ only in the token.
- PartsCategoriesPage.LabelIndex: "first" is first in the record's field order. `Object.entries` lists integer-like keys (a column named `2024`, say) first, in ascending order, so such a column can become the label where the model picks another field.
- PartsCategoriesPage.CardLabel: the same field-order gap as `LabelIndex`.
- ClientResults.ShownFieldsAppend: the order it states is the record's field order. `Object.entries` lists integer-like keys first, ascending, so cards show such columns first; this applies to the three pages' `CardFields` alike.
- BackendCatalog.LoadFailure: the text of an exception pandas raises for an unreadable file is a parameter of the model (`Unreadable.reason`), not computed.
- Upload: `path.basename`/`extname` are modelled for POSIX paths only (`/` separator). The uploaded file's contents are not modelled.

## Findings

| source | as written | input that shows it | evidently intended | confidence | as-written member | corrected member |
|---|---|---|---|---|---|---|
| frontend/src/components/ServicePartsPage.jsx:52-54 | the `finally` of an aborted fetch clears `loading` while the fetch that superseded it is still in flight | type a term before the mount's page 1 arrives; after the debounce fires, the aborted mount fetch settles and clears `loading`; Load More then aborts the new page 1 and shows page 2 alone | only the current fetch ends loading, so Load More waits until the page in flight settles | not executed | ServicePartsPage.AbortedFetchTrace | ServicePartsPage.ServicePartsPage.SettleCorrected |
| frontend/src/components/ServicePartsPage.jsx:17-23 | the debounce resets `page` to 1 even when the trimmed term is unchanged, so no page 1 fetch follows | after two pages of `""`, type `a` and erase it within 300 ms; the next Load More requests page 2 again and appends it a second time | `page` is reset only together with the page 1 fetch of a changed term | not executed | ServicePartsPage.RepeatedPageTrace | ServicePartsPage.ServicePartsPage.QuiesceCorrected |
