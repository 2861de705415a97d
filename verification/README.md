# media-census dashboard: the pure core in Dafny

This project models the data-shaping logic of the media-census React dashboard. It states that logic as pure Dafny functions over immutable datatypes and proves what the views promise.

Each view's component state is a `View` datatype. Each fetch becomes two transitions:

- a `StartRefresh`/`StartLoad` transition that sets `loading`;
- a `Refreshed`/`Loaded`/`Reloaded` transition from the view and a `Response` to the new view. The `Response` is either the decoded JSON body or the rejection.

Modules:

- **Common**
  - `Option` models a value that may be null or undefined.
  - `Response` models how a request settles.
  - JavaScript truthiness is modelled for strings (present and non-empty) and for numbers (present and non-zero).
- **Text**
  - Decimal rendering of integers (`toString`).
  - `join` and `split` on a separator.
  - Occurrence counting and character removal.
  - Each comes with the inverses used in the round-trip proofs.
- **Commas**: `numberWithCommas`.
  - The regex `/\B(?=(\d{3})+(?!\d))/g` is modelled literally: a non-boundary test, then a lookahead over runs of three digits.
  - It is proved equal to a reference definition that groups digits in threes from the right.
- **ChartMode**
  - The integer mode codes: `CHART_MODE_COUNT = 1`, `CHART_MODE_SIZE = 2`, and anything else is `Other(code)`.
  - The `makeColourValues` ramp. Each colour is kept symbolic as `Hsla(step, count, offset)`.
- **QueryString**: `objectToQueryString`, with its parser, the round-trip proof and the separator count. Keys are kept in `Object.keys` order as a sequence of `Param`s.
- **NearlineStorages**
  - `processData` regroups per-storage state entries into state → counts and state → clamped sizes.
  - `dataForMode`, `labelForMode`, the tooltip and tick text, and the refresh cycle.
- **VSFileSearchView**
  - Request URI building, the `componentDidUpdate` reload test, and the load transitions.
  - The "Results limited to N" footer.
  - `splitFilePath`, against the regex `/^(.*)\/([^/]+)$/`.
- **StatsHistoryGraph**: the `/api/jobs/forTimespan` URL with its optional `startAt`/`endAt`, and the `facetData` mapping.
- **NearlineStorageMembership**
  - The pie, bar and summary series.
  - The summary's partition of the total.
  - The refresh cycle.
  - The bar click that selects a date and drives the embedded file list.
- **NearlineStorageArchived**: the field renaming in `loadData`, `makePieData` by mode, the tooltip, and the headline figure.
- **ProjectSearchView**: the status URI, the reload test, the load transitions and the "more than 128" footer.
- **NearlineUnclog**
  - Dataset derivation per mode, including the thrown invalid-mode error.
  - The colour index bound, the TiB tick (2^40) and the axis title.

## Model

| member | source | states |
|---|---|---|
| Commas.CommasGroupDigits | frontend/app/NearlineStorages.jsx:8-10 | The regex replacement on the decimal digits of n gives exactly those digits grouped in threes from the right. |
| Commas.CommasStripToDecimal | frontend/app/NearlineStorages.jsx:8-10 | Removing the commas from `numberWithCommas(n)` gives back the plain decimal digits of n. |
| Commas.CommasShape | frontend/app/NearlineStorages.jsx:9 | The first group has one to three digits and every later group exactly three. The number of commas is (digits − 1) / 3. |
| Commas.SmallNumbersPlain | frontend/app/NearlineStorages.jsx:9 | Below 1000 the result has no comma and is the plain decimal string. |
| Commas.LargeNumbersSeparated | frontend/app/NearlineStorages.jsx:9 | From 1000 upward the result contains at least one comma. |
| Commas.ThousandsExample | frontend/__tests__/test_NearlineStorages.jsx:34 | 883496 is rendered "883,496". |
| ChartMode.ModeOf | frontend/app/common/NearlineControlsBanner.jsx:8-9 | Code 1 reads as count and code 2 as size, each if and only if. Every other code is an invalid mode. |
| ChartMode.ModeCodeRoundTrip | frontend/app/common/NearlineControlsBanner.jsx:8-9 | Reading a stored code loses nothing. Every well-formed mode is read back from its own code. |
| ChartMode.MakeColourValues | frontend/app/NearlineStorageMembership.jsx:32-39 | One colour per index below `count`, none for a non-positive count. Colour k is step k of a ramp of `count` with the given offset. |
| QueryString.ObjectToQueryString | frontend/app/StatsHistoryGraph.jsx:41-45 | The result is empty if and only if the params are null or empty. Otherwise it starts with '?'. |
| QueryString.QueryStringRoundTrip | frontend/app/StatsHistoryGraph.jsx:43-44 | With no '&' in keys or values and no '=' in keys, parsing the query string gives back the params, in key order. No params give "", which parses back to none. |
| QueryString.AmpersandCount | frontend/app/StatsHistoryGraph.jsx:43 | Nothing is escaped, and n such pairs are joined by exactly n − 1 ampersands. |
| QueryString.QueryStringExample | frontend/__tests__/test_StatsHistoryGraph.jsx:6-10 | key1/key2 give "?key1=value1&key2=value2". |
| QueryString.QueryStringEmptyExamples | frontend/__tests__/test_StatsHistoryGraph.jsx:13-23 | The empty map and null both give "". |
| StatsHistoryGraph.ReloadUrlShapes | frontend/app/StatsHistoryGraph.jsx:49-53 | The URL is the endpoint, plus `startAt` only when a start is set and `endAt` only when an end is set. `startAt` comes first. |
| StatsHistoryGraph.ReloadUrlParses | frontend/app/StatsHistoryGraph.jsx:49-53 | When neither bound holds an '&', the URL's query parses back to exactly the bounds that are set, in order. |
| StatsHistoryGraph.FacetData | frontend/app/StatsHistoryGraph.jsx:57-63 | One point per scan, in order. Each point has the scan's start as its label and the three backup counts unchanged. |
| StatsHistoryGraph.StartReload | frontend/app/StatsHistoryGraph.jsx:55 | The reload sets `loading`, clears the error, and keeps the old points and both timestamps. |
| StatsHistoryGraph.Reloaded | frontend/app/StatsHistoryGraph.jsx:55-73 | Success replaces the points with the mapped entries and clears the error. Failure keeps the points and records the error. |
| StatsHistoryGraph.MountRequestsAllJobs | frontend/app/StatsHistoryGraph.jsx:19-39 | The view mounts with no bounds set, so the first reload requests the bare jobs endpoint. If that reload fails, nothing is plotted. |
| NearlineStorages.PlottedSize | frontend/app/NearlineStorages.jsx:57-61 | A plotted size is never negative. It is the size itself, or zero when the size is negative. |
| NearlineStorages.Tally | frontend/app/NearlineStorages.jsx:49-64 | The fold into two empty objects yields one key per state label that occurs. Each key holds that label's counts and clamped sizes, in order. |
| NearlineStorages.ProcessData | frontend/app/NearlineStorages.jsx:45-67 | The two objects group every state entry of every storage, storage by storage, as `GroupsAs` defines. |
| NearlineStorages.SeriesAgree | frontend/app/NearlineStorages.jsx:51-61 | For each label the count and size series have the same non-zero length. Every size is non-negative. |
| NearlineStorages.StartRefresh | frontend/app/NearlineStorages.jsx:70 | A refresh first sets `loading`. |
| NearlineStorages.Refreshed | frontend/app/NearlineStorages.jsx:69-75 | Success stores the response, rebuilds both objects from it, and leaves `lastError`, `mode` and `chartMode` as they were. Failure changes only `loading` and `lastError`. |
| NearlineStorages.RefreshForgetsOldLabels | frontend/app/NearlineStorages.jsx:45-67 | Both objects start empty, so a label absent from the new response is gone after a refresh. |
| NearlineStorages.DataForMode | frontend/app/NearlineStorages.jsx:77-89 | The result is null if and only if the mode is unrecognised. |
| NearlineStorages.DatasetAt | frontend/app/NearlineStorages.jsx:113-119 | The dataset at position idx carries its state label and the label's series for the mode the chart reads. It has a colour exactly for the first five positions, and that colour is step idx of five from offset 10. |
| NearlineStorages.DataForModeAfterRefresh | frontend/app/NearlineStorages.jsx:77-89 | After a refresh, count mode gives a label's counts and size mode its clamped sizes, in storage order. Any other mode gives null. |
| NearlineStorages.LabelForMode | frontend/app/NearlineStorages.jsx:91-101 | Count mode gives a text with no suffix. The result is null if and only if the mode is unrecognised. |
| NearlineStorages.CountLabelIsSeparatedDigits | frontend/app/NearlineStorages.jsx:93-94 | In count mode the label is the value's digits with thousands separators, grouped in threes, with no suffix. |
| NearlineStorages.JoinLabel | frontend/app/NearlineStorages.jsx:152-155 | A label joins to its text, followed by its suffix when the suffix is truthy. The null label yields nothing, because indexing it throws. |
| NearlineStorages.StorageTooltipCases | frontend/app/NearlineStorages.jsx:130-140 | In count mode the tooltip is the dataset label, ": ", then the count with separators. In an unrecognised mode the catch branch prints the raw value. |
| NearlineStorages.AxisTitle | frontend/app/NearlineStorages.jsx:148 | "Size" if and only if size mode; "File count" otherwise. |
| NearlineStorages.ProcessDataExample | frontend/__tests__/test_NearlineStorages.jsx:7-21 | For the UNKNOWN and LOST rows of the test's two storages: UNKNOWN counts [62, 108] and UNKNOWN sizes [57356821052, 146351189045]. LOST's sizes are clamped to [0, 1389345]. |
| NearlineStorages.ModeSelectedAsWritten | frontend/app/NearlineStorages.jsx:105-106 | The selector stores the chosen mode in `chartMode`. Every other field, `mode` included, is unchanged. |
| NearlineStorages.SelectorIgnoredAsWritten | frontend/app/NearlineStorages.jsx:80-84 | As written, a selection never changes the plotted series, for every view and every code. |
| NearlineStorages.SelectorIgnoredExample | frontend/app/NearlineStorages.jsx:105-106 | With the UNKNOWN/LOST rows of the test's response loaded into the initial size-mode view, choosing count as written still plots UNKNOWN's sizes [57356821052, 146351189045]. The corrected handler plots its counts [62, 108]. |
| NearlineStorages.ModeSelected | frontend/app/NearlineStorages.jsx:105-106 | Corrected: the chosen mode becomes both the mode the chart reads and the selector's value. Every other field, the series included, is unchanged. |
| NearlineStorages.SelectorSwitchesSeries | frontend/app/NearlineStorages.jsx:80-88 | Corrected: choosing count plots counts, choosing size plots sizes, and any other choice plots null. |
| VSFileSearchView.RequestUri | frontend/app/VSFileSearchView.jsx:37-45 | A URI is built if and only if both the start and the duration are truthy. |
| VSFileSearchView.RequestUriText | frontend/app/VSFileSearchView.jsx:39-45 | That URI is "/api/nearline/files?start=<s>&duration=<d>". |
| VSFileSearchView.RequestUriParses | frontend/app/VSFileSearchView.jsx:45 | If the start has no '&', the URI's query parses back to exactly the two props, in order. |
| VSFileSearchView.RequestParamsUnambiguous | frontend/app/VSFileSearchView.jsx:38-45 | When the start has no '&', neither param holds an '&' and neither key holds an '=', so the unescaped rendering can be read back. |
| VSFileSearchView.ReloadData | frontend/app/VSFileSearchView.jsx:37-61 | With a URI, `loading` is set and that URI is requested. Without one, nothing changes and nothing is requested. |
| VSFileSearchView.DidUpdate | frontend/app/VSFileSearchView.jsx:28-35 | A visible view reloads when the start or the duration changed. Unchanged props, or an invisible view, issue no request and change nothing. |
| VSFileSearchView.Loaded | frontend/app/VSFileSearchView.jsx:47-59 | Success stores the entries and the reported count and clears the error. Failure keeps the list and the count. |
| VSFileSearchView.FooterReportsTruncation | frontend/app/VSFileSearchView.jsx:101-105 | "All results shown" appears if and only if no fewer rows arrived than matched. Otherwise the footer's number reads back as the row count. |
| VSFileSearchView.MountLoadsWindow | frontend/app/VSFileSearchView.jsx:16-26 | The view mounts with an empty list and a zero count, so the footer first reads "All results shown". Mounting requests the window in the props. A failed first load keeps the empty list under the error. A successful one holds exactly the page's rows and count. |
| VSFileSearchView.SplitFilePathFollowsRegex | frontend/app/VSFileSearchView.jsx:63-72 | The result is the regex's two groups when the regex matches. It is ["", path] exactly when no split of the path matches. |
| VSFileSearchView.SplitFilePathSound | frontend/app/VSFileSearchView.jsx:63-70 | Whatever is split off is a match of the regex: either ["", path] or two groups that rebuild the path around a slash. |
| VSFileSearchView.MatchSlashIsLast | frontend/app/VSFileSearchView.jsx:63 | In any match the separating slash is the path's last slash. |
| VSFileSearchView.SplitFilePathRoundTrip | frontend/app/VSFileSearchView.jsx:63-68 | On a match, directory + "/" + name is the path and the name has no slash. |
| VSFileSearchView.SplitFilePathNoSlash | frontend/app/VSFileSearchView.jsx:69-70 | A path without '/' gives ["", path]. |
| VSFileSearchView.SplitFilePathTrailingSlash | frontend/app/VSFileSearchView.jsx:63-70 | A path ending in '/' leaves nothing for `[^/]+`, so it gives ["", path]. |
| VSFileSearchView.SplitFilePathAbsolute | frontend/__tests__/test_VSFileSearchView.jsx:8-9 | "/path/to/something.mp4" splits into "/path/to" and "something.mp4". |
| VSFileSearchView.SplitFilePathBare | frontend/__tests__/test_VSFileSearchView.jsx:13-14 | "something.mp4" gives ["", "something.mp4"]. |
| VSFileSearchView.SplitFilePathRelative | frontend/__tests__/test_VSFileSearchView.jsx:18-19 | "path/to/something.mp4" splits into "path/to" and "something.mp4". No leading slash is needed. |
| ProjectSearchView.RequestUri | frontend/app/ProjectSearchView.jsx:37-44 | A URI is built if and only if the project status is truthy. |
| ProjectSearchView.RequestUriNamesStatus | frontend/app/ProjectSearchView.jsx:44 | The URI is "/api/unclog/mediaStatus/<status>/projects", and the status reads back from between the prefix and the suffix. |
| ProjectSearchView.ReloadData | frontend/app/ProjectSearchView.jsx:37-60 | With a URI, `loading` is set and that URI is requested. Without one, nothing happens. |
| ProjectSearchView.DidUpdate | frontend/app/ProjectSearchView.jsx:28-35 | Only a visible view whose status changed reloads. Such a reload is exactly `loadData` for the new props: a truthy status requests and sets `loading`, and nothing else changes. |
| ProjectSearchView.Loaded | frontend/app/ProjectSearchView.jsx:46-58 | Success stores the list, its length as the count, and clears the error. Failure keeps the list and the count. |
| ProjectSearchView.LoadedCountMatchesList | frontend/app/ProjectSearchView.jsx:50-51 | After any successful load the count equals the list's length. |
| ProjectSearchView.Footer | frontend/app/ProjectSearchView.jsx:83-87 | The footer is one of its two fixed texts. |
| ProjectSearchView.FooterWarnsAboveLimit | frontend/app/ProjectSearchView.jsx:84-86 | "More than 128 projects found" appears if and only if more than 128 projects are listed; otherwise "All results shown". |
| ProjectSearchView.MountLoadsStatus | frontend/app/ProjectSearchView.jsx:16-26 | The view mounts with an empty list, so the footer first reads "All results shown". Mounting requests the status in the props. After that load succeeds, the footer warns exactly when more than 128 projects came back. |
| NearlineStorageMembership.SizeSumAppend | frontend/app/NearlineStorageMembership.jsx:53 | The left-fold sum of sizes adds up piecewise over any division of the states. |
| NearlineStorageMembership.SizeSumNonNegative | frontend/app/NearlineStorageMembership.jsx:53 | With no negative size, the sum of sizes is non-negative. |
| NearlineStorageMembership.PieData | frontend/app/NearlineStorageMembership.jsx:47-48 | One value and one label per state, in order. The value is the count in count mode and the size otherwise; the label is the state. |
| NearlineStorageMembership.BarData | frontend/app/NearlineStorageMembership.jsx:50-51 | One value and one label per breakdown entry, in order: its doc count and its date. |
| NearlineStorageMembership.SummaryData | frontend/app/NearlineStorageMembership.jsx:53-58 | Two values under the two fixed labels. Count mode: the second is `noMembership` and the two sum to `totalCount`. Otherwise: the second is the sum of the state sizes and the two sum to `totalSize`. |
| NearlineStorageMembership.RefreshChartData | frontend/app/NearlineStorageMembership.jsx:46-74 | The pie, bar and summary series are rebuilt from the stored states, breakdown and totals for the current mode. No other field changes. |
| NearlineStorageMembership.SummaryLabelled | frontend/app/NearlineStorageMembership.jsx:108-109 | Every summary value has a label, and every colour index `2*idx` it uses lies inside the ten-colour ramp. |
| NearlineStorageMembership.StartRefresh | frontend/app/NearlineStorageMembership.jsx:77 | A refresh first sets `loading`. |
| NearlineStorageMembership.Refreshed | frontend/app/NearlineStorageMembership.jsx:76-91 | Success stores the report, clears the error, and rebuilds the pie, the bar and the summary from it. Failure changes only `loading` and `lastError`. Neither touches the mode or the selection. |
| NearlineStorageMembership.FailureKeepsData | frontend/app/NearlineStorageMembership.jsx:87-90 | A failed refresh leaves the totals, the states, the breakdown and all three series as they were. |
| NearlineStorageMembership.SummaryPartitionsTotal | frontend/app/NearlineStorageMembership.jsx:53-58 | After a refresh the summary splits the report's total into attached and unattached shares. The total is the count in count mode and the size otherwise. |
| NearlineStorageMembership.MountBuildsCountCharts | frontend/app/NearlineStorageMembership.jsx:13-27 | The view mounts with no charts and the file list hidden. The first successful refresh builds all three charts in count mode. The summary is [total count − unattached, unattached], and the file list stays hidden. |
| NearlineStorageMembership.ModeChanged | frontend/app/NearlineStorageMembership.jsx:100 | The new mode is stored and all three series are rebuilt for it. The report, `loading`, the error and the file-list selection stay as they were. |
| NearlineStorageMembership.BarClicked | frontend/app/NearlineStorageMembership.jsx:200-204 | A click on bar i selects label i (undefined past the end) and shows the file list. A click on nothing, or before data arrives, throws and changes nothing. |
| NearlineStorageMembership.BarClickRequestsFiles | frontend/app/NearlineStorageMembership.jsx:200-204 | After a refresh, clicking bar i selects the i-th date. The embedded file list then requests "/api/nearline/files?start=<date>&duration=2592000", which is thirty days. |
| NearlineStorageMembership.FileListRequest | frontend/app/NearlineStorageMembership.jsx:250 | The embedded list, given a non-empty date and a duration of 30*3600*24, requests "/api/nearline/files?start=<date>&duration=2592000". |
| NearlineStorageArchived.StartLoad | frontend/app/NearlineStorageArchived.jsx:45 | A load first sets `loading`. |
| NearlineStorageArchived.Loaded | frontend/app/NearlineStorageArchived.jsx:44-66 | Success maps `with_archive_id_*` to `in_archive_*` and `missing_archive_id_*` to `not_archived_*`, copies both totals and clears the error. Failure changes only `loading` and `lastError`. |
| NearlineStorageArchived.DataModeChanged | frontend/app/NearlineStorageArchived.jsx:72-75 | Only the mode changes. |
| NearlineStorageArchived.MakePieData | frontend/app/NearlineStorageArchived.jsx:86-108 | Count mode shows the archived count, then the nearline-only count, with two labels and ramp colours 0 and 1. Size mode shows the same for sizes. Any other mode shows [0] under the error label, with no colours. |
| NearlineStorageArchived.PieShowsLoadedStats | frontend/app/NearlineStorageArchived.jsx:50-57 | After a successful load the pie shows the response's "with archive id" figure, then its "missing archive id" figure, for the current mode. |
| NearlineStorageArchived.MountShowsCounts | frontend/app/NearlineStorageArchived.jsx:16-26 | The view mounts in count mode with every figure zero. Before the first load, and after a failed one, the pie shows two zero count slices. After a successful load it shows the response's counts. |
| NearlineStorageArchived.Tooltip | frontend/app/NearlineStorageArchived.jsx:147-160 | Size mode: label, ": ", then the byte text. Count mode: label, ": ", then the number with commas. Otherwise "invalid mode". |
| NearlineStorageArchived.CountTooltipNamesSlice | frontend/app/NearlineStorageArchived.jsx:147-156 | In count mode, slice i's tooltip starts with its label and ": ". What follows, without commas, is the slice's count. |
| NearlineStorageArchived.TotalsMetric | frontend/app/NearlineStorageArchived.jsx:110-118 | Count and size modes each have their headline text. An unrecognised mode renders nothing. |
| NearlineStorageArchived.CountMetricReadsBack | frontend/app/NearlineStorageArchived.jsx:113 | In count mode the figure between the fixed words, without commas, is the total count's digits. |
| NearlineUnclog.StartRefresh | frontend/app/NearlineUnclog.jsx:32 | A refresh first sets `loading`. |
| NearlineUnclog.Refreshed | frontend/app/NearlineUnclog.jsx:31-37 | Success stores the list and leaves any earlier error. Failure keeps the list and records the error. |
| NearlineUnclog.ModeChanged | frontend/app/NearlineUnclog.jsx:50 | The new mode is stored and a fresh request starts. |
| NearlineUnclog.ColourFor | frontend/app/NearlineUnclog.jsx:29 | Dataset idx has a colour if and only if idx <= 9, since 2*idx must index the 19-colour ramp. The colour is ramp step 2*idx. |
| NearlineUnclog.SegmentsFrom | frontend/app/NearlineUnclog.jsx:60-70 | One segment per entry, in order, each built from its own entry and index. |
| NearlineUnclog.Datasets | frontend/app/NearlineUnclog.jsx:60-70 | Building throws the invalid-mode message if and only if a non-empty list meets an unrecognised mode. No list gives no datasets. Otherwise there is one dataset per entry. |
| NearlineUnclog.DatasetsFollowEntries | frontend/app/NearlineUnclog.jsx:61-69 | Dataset i carries entry i's label, [count] in count mode or [size] in size mode, and a colour exactly when i < 10. |
| NearlineUnclog.MountDrawsCounts | frontend/app/NearlineUnclog.jsx:10-41 | The view mounts with no list and draws nothing. After the first successful refresh it draws one count segment per entry, in order, with the entry's label, and never throws. |
| NearlineUnclog.TiBIsPow2 | frontend/app/NearlineUnclog.jsx:81 | 1099511627776 is 2^40. |
| NearlineUnclog.TickLabel | frontend/app/NearlineUnclog.jsx:80-81 | Size mode gives text. Every other mode gives the value unchanged. |
| NearlineUnclog.TickLabelFloor | frontend/app/NearlineUnclog.jsx:81 | In size mode the tick names the unique whole q with q·2^40 <= value < (q+1)·2^40, then "Tib". Negative values are included, as `Math.floor` rounds down. |
| NearlineUnclog.AxisTitle | frontend/app/NearlineUnclog.jsx:78 | "Total size" if and only if size mode; "File count" otherwise. |

## Left out

- HTTP and asynchrony: axios and fetch calls, promise chains, `setState` callback ordering and lifecycle hooks are not modelled. Each request is split into a start transition and a settle transition that takes the response as a value.
- Rendering: chart-library option objects, JSX, CSS, the router, and `index.jsx`, `BannerMenu.jsx` and `IndexRedirect.jsx` have no logic to state.
- The hue arithmetic and the `hsla(...)` string of `makeColourValues` are floating point, so a colour is kept as its (step, count, offset).
- IntToString: `Number#toString` switches to exponent form ("1e+21") from 1e21 upward, and JavaScript numbers are not exact above 2^53. The model always writes the plain decimal digits of an unbounded integer. NumberWithCommas and the Commas lemmas therefore describe the program only below 1e21, and only for values a double holds exactly.
- Sizes that arrive as JSON floats (such as 4.8691372696001E13) are modelled as integers. `numberWithCommas` on non-integers, where the regex also marks the fraction, is not modelled.
- Dates are not modelled: `moment` parsing and formatting, the `epoch` of each facet, the date ticks of the membership bar chart, and `TimestampDiffComponent.jsx` all go through a library that is not part of this model.
- `BytesFormatterImplementation.getValueAndSuffix` is not part of this model. The size branches take it as a parameter `bytes`.
- The membership view's tooltips and summary ticks are not modelled (NearlineStorageMembership.jsx:128-165 and :219-240):
  - In count mode, both the summary tooltip and the pie tooltip return `xLabel + ": " + yLabel` with the raw value and never call the byte formatter.
  - In size mode, the summary's tick returns the formatter's value and suffix with no label.
  - The summary tooltip's `xLabel` is `data.labels[tooltipItem.index]`, and the summary chart's labels are fixed to `["Summary"]`. So that tooltip reads "Summary: …" for both segments, never the segment's own label.
- `RunsAdmin.jsx` and `RunsInProgress.jsx` are fetch-and-table views with nothing beyond string concatenation. They are not modelled.
- `CurrentStateStats.jsx` is not modelled. Its test expects the URL "/api/stats/unattached", prepended buckets and a subtraction, but the code fetches "/api/stats/replicas" and stores the buckets unchanged.
- `NearlineControlsBanner.jsx` is a UI control. Only its two mode constants are modelled.
- The ordering of NearlineStorages' datasets follows `Object.keys`, which lists integer-like keys first. The series are modelled as a map keyed by state label, so dataset order is not stated. DatasetAt takes a label's position as a parameter.
- Label and tick callbacks that index a null result throw inside the chart library. The model reports that case as `None` or `Thrown` and says nothing about what the library then draws.
- The membership bar-click handler reads `elems[0]._index`. The click is modelled as the index of the first element hit, or `None` when none was hit.
- `splitFilePath` is an instance method, although its test calls it as a static one. The model is a plain function, so the difference does not arise.
- NearlineStorages.DataForMode takes the mode as a parameter, so both the as-written and the corrected mode selectors below can be stated against it.

## Findings

| source | as written | input that shows it | evidently intended | confidence | as-written member | corrected member |
|---|---|---|---|---|---|---|
| frontend/app/NearlineStorages.jsx:105-106 | The mode selector writes `chartMode`, but `dataForMode` and `labelForMode` switch on `mode` (line 80) | Load the test's response into the initial view, which is in size mode, then choose "View by file count" (code 1): `mode` stays 2 and UNKNOWN's sizes are still plotted | The selection sets the mode the chart reads, so count mode plots counts | high; not executed | NearlineStorages.ModeSelectedAsWritten, NearlineStorages.SelectorIgnoredAsWritten, NearlineStorages.SelectorIgnoredExample | NearlineStorages.ModeSelected, NearlineStorages.SelectorSwitchesSeries |
