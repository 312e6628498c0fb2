# SatisfeedSchools core, modelled in Dafny

SatisfeedSchools is a Next.js dashboard for a food-assistance programme in
Georgia. Volunteers upload spreadsheets of deliveries; the dashboard turns them
into a household heatmap, boundary statistics for a chosen county or ZIP code,
demographic summaries and charts, and shows schools and libraries on a map.
This project models the data-cleaning and aggregation logic behind those
features and proves what it promises:

- **Heatmap pipeline** (`addressfilter`, `aggregate`, `geojson`, `csvparse`,
  `dryrun`, `locationiq`, `pipeline`): CSV row clean-up, the rule-based address
  validator and formatter, the frequency table of accepted addresses,
  three-decimal rounding and binning with a k-anonymity threshold, GeoJSON
  emission, the dry-run summary, the sequential batch geocoder and the
  geocoding endpoint that merges positions with counts.
- **Boundary statistics** (`boundary`, `schooldisplay`, `librarydisplay`,
  `countyoverlay`, `distributionoverlay`): the county file slug, the
  county/ZIP feature lookup, the bounding box of a polygon, the school-level
  guess from a school's name, and the households and schools counted inside a
  boundary, with "unknown" (null) kept apart from zero.
- **Demographic upload route** (`demographics`, `demogroups`): the record
  filter, ZIP padding and city lookup, the first-"YES" race and employment
  choice, income bins, county-name normalisation, and the group-by summaries
  and label counters whose totals add up.
- **Record transformers** (`schooltransform`, `librarytransform`): school
  records and OpenStreetMap library elements to stored documents.
- **Validators and helpers** (`register`, `dropdown`, `legacydropdown`,
  `charts`, `schoolsmap`): the registration rules and submit handler, the two
  county/ZIP dropdowns, the chart data selection and ordering, and the clamp
  of the map centre into Georgia.

The modules `wrappers`, `jstext`, `jsnum`, `jsparse`, `tally`, `sorting` and
`counter` model the JavaScript behaviour the code relies on: `undefined` as
`None`, truthiness, `trim` and `padStart`, ASCII case mapping, `parseInt` and
`parseFloat`, `Math.round` and `Math.ceil`, a stable `Array.prototype.sort`,
and objects and `Map`s used as counters in insertion order.

Code that works step by step is modelled as methods with loops (the address
parts loop, the counting and binning loops, the geocoding batch, the boundary
counts, the bounding box, the upload route's per-record loop and group-by
loops, the chart aggregation); each method is proved equal to a specification
function whose meaning is proved in lemmas. Components whose state lives
across calls (the county overlay, the dropdowns, the registration form) are
classes whose methods state the whole new state.

`round3` follows `Math.round`, which rounds ties toward +∞, negative
ties included (`Aggregate.Round3TiesUp`). Two behaviours of the code as written
are stated as lemmas rather than corrected: any street containing "rr" gets
the rural-route error (`AddressFilter.AnyDoubleRIsRuralRoute`), and the geocoding
endpoint always reports `uniqueAddresses` as 0 because the counts are cleared
before the response reads them (`Pipeline.Run`).

## Model

| member | source | states |
|---|---|---|
| AddressFilter.NormalizeKey | code/src/app/api/csv-geocode-upload/filters.ts:28-30 | `normizeKey`: lower-case, then delete every separator; its meaning is stated by `RemoveSeparators`, `NormalizeDropsSeparator` and `CaseIgnored` |
| AddressFilter.RemoveSeparators | code/src/app/api/csv-geocode-upload/filters.ts:28-30 | header normalisation leaves no white space, `_`, `-`, `.`, `/` or `#` and never lengthens the header |
| AddressFilter.RemoveSeparatorsAppend | code/src/app/api/csv-geocode-upload/filters.ts:29 | deleting separators distributes over concatenation, so runs and single characters are treated alike |
| AddressFilter.NormalizeDropsSeparator | code/src/app/api/csv-geocode-upload/filters.ts:28-30 | inserting one separator character anywhere in a header leaves its normalised key unchanged |
| AddressFilter.SeparatorIgnored | code/src/app/api/csv-geocode-upload/filters.ts:51-62 | a header with an inserted separator maps to the same address part (or to none) as without it |
| AddressFilter.CaseIgnored | code/src/app/api/csv-geocode-upload/filters.ts:28-30 | headers that differ only in letter case map to the same address part |
| AddressFilter.ZipSpelling | code/src/app/api/csv-geocode-upload/filters.ts:33-47 | the header "Zip-Code" is one of the zip synonyms |
| AddressFilter.PickAddressParts | code/src/app/api/csv-geocode-upload/filters.ts:51-62 | the loop over the cells yields the parts of the left-to-right fold `PartsOf`, whose meaning the next three rows state |
| AddressFilter.PartsOfStep | code/src/app/api/csv-geocode-upload/filters.ts:53-59 | one more cell changes only the part its header maps to, which becomes the trimmed cell (undefined read as "") |
| AddressFilter.UnmappedPartStaysUnset | code/src/app/api/csv-geocode-upload/filters.ts:51-62 | a part that no header maps to stays undefined |
| AddressFilter.MappedPartIsSet | code/src/app/api/csv-geocode-upload/filters.ts:51-62 | a part that some header maps to is defined |
| AddressFilter.LaterHeaderWins | code/src/app/api/csv-geocode-upload/filters.ts:53-59 | a part holds the trimmed cell of the last header that maps to it |
| AddressFilter.CleanStr | code/src/app/api/csv-geocode-upload/filters.ts:65-67 | `cleanStr`: trim, collapse white-space runs, strip one pair of quotes; its meaning is stated by `CleanStrShape` |
| AddressFilter.CleanStrShape | code/src/app/api/csv-geocode-upload/filters.ts:65-67 | the cleaned value keeps every character of the input that is not white space, in order; it is trimmed, its only white space is single spaces never adjacent, and one enclosing pair of quotes is stripped |
| JsText.ReplaceRunsRun | code/src/app/api/csv-geocode-upload/filters.ts:66 | `replace(/\s+/g, " ")` turns a non-empty run of white space into exactly one space |
| JsText.ReplaceRunsSplit | code/src/app/api/csv-geocode-upload/filters.ts:66 | a character outside the class is kept where it is and the runs on either side are replaced independently, which with the run case determines the replacement on every input |
| JsText.ReplaceRunsKeepsOthers | code/src/app/api/csv-geocode-upload/filters.ts:66 | the replacement keeps every character outside the class, in order |
| AddressFilter.ValidateCity | code/src/app/api/csv-geocode-upload/filters.ts:70-73 | no error exactly when the city is a letter followed by letters, white space, `'` or `-`; otherwise the one city reason |
| AddressFilter.ValidateZip | code/src/app/api/csv-geocode-upload/filters.ts:74-77 | no error exactly when the zip is five digits; otherwise the one zip reason |
| AddressFilter.ValidateStreet | code/src/app/api/csv-geocode-upload/filters.ts:78-92 | the reasons are those of the eight street rules the street breaks, in rule order (`StreetErrors`) |
| AddressFilter.RuralRouteScan | code/src/app/api/csv-geocode-upload/filters.ts:84 | a rural-route match at any index makes the unanchored rule fire |
| AddressFilter.AnyDoubleRIsRuralRoute | code/src/app/api/csv-geocode-upload/filters.ts:84 | because `RR\s*\d*` accepts zero digits, any "rr" in any case rejects the street as a rural route |
| AddressFilter.MashedBreaksTwoRules | code/src/app/api/csv-geocode-upload/filters.ts:87-88 | a house number glued to a letter breaks both the "number, space, letters" rule and the "mashed" rule |
| AddressFilter.LetterThenDigitScan | code/src/app/api/csv-geocode-upload/filters.ts:89 | a letter immediately followed by a digit at any index makes the rule fire |
| AddressFilter.MissingPartsRejected | code/src/app/api/csv-geocode-upload/filters.ts:104-110 | a row missing its street, city or zip is rejected with one "missing" reason per absent part, in that order, and no other reason |
| AddressFilter.AllErrorsCollected | code/src/app/api/csv-geocode-upload/filters.ts:112-122 | with all three parts present, every zip, city and street reason is collected in that order, and the row is accepted exactly when there is none |
| AddressFilter.FilterAndFormat | code/src/app/api/csv-geocode-upload/filters.ts:101-125 | `filterAndFormat`: missing parts first, then every validator, then the query; its meaning is stated by `MissingPartsRejected`, `AllErrorsCollected` and `AcceptedAddressShape` |
| AddressFilter.AcceptedAddressShape | code/src/app/api/csv-geocode-upload/filters.ts:103-125 | a row is accepted exactly when its parts are present and pass every rule; the query is "street, city, GA zip" with a five-digit zip |
| AddressFilter.LetterThenDigitRejected | code/src/app/api/csv-geocode-upload/filters.ts:116-122 | a cleaned street with a letter right before a digit is always rejected |
| AddressFilter.StateNeverConsulted | code/src/app/api/csv-geocode-upload/filters.ts:101-104 | rows that differ only in their state part get the same outcome |
| Aggregate.AddressCounts | code/src/app/api/csv-geocode-upload/aggregate.ts:12-26 | the table's keys are distinct and are exactly the addresses it holds counts for |
| Aggregate.BuildAddressCounts | code/src/app/api/csv-geocode-upload/aggregate.ts:12-26 | the loop over the addresses builds the table `AddressCounts` describes, with or without the cap |
| Aggregate.CountAddress | code/src/app/api/csv-geocode-upload/aggregate.ts:17-23 | one address read by the loop keeps the table a tabulation of the addresses read so far: an empty address is skipped, a new one is recorded once, a known one gains one unless counts are capped |
| Aggregate.CountAll | code/src/app/api/csv-geocode-upload/aggregate.ts:22 | one more address raises its own count by one and no other count |
| Aggregate.TableIs | code/src/app/api/csv-geocode-upload/aggregate.ts:16-25 | a key order and a value map that agree with the distinct non-empty addresses and their counts are the table |
| Aggregate.CountRecorded | code/src/app/api/csv-geocode-upload/aggregate.ts:18 | skipping empty addresses leaves every non-empty address's number of occurrences unchanged |
| Aggregate.KeysAreTheNonEmptyAddresses | code/src/app/api/csv-geocode-upload/aggregate.ts:17-24 | an address is a key exactly when it is non-empty and occurs |
| Aggregate.UncappedValueIsOccurrences | code/src/app/api/csv-geocode-upload/aggregate.ts:22 | without the cap a key's value is its number of occurrences, at least 1 |
| Aggregate.CapKeepsKeys | code/src/app/api/csv-geocode-upload/aggregate.ts:19-20 | the cap keeps the keys and their order and sets every value to 1 |
| Aggregate.TotalOverSumOfCounts | code/src/app/api/csv-geocode-upload/aggregate.ts:22 | adding the values over the keys adds up the keys' occurrence counts |
| Aggregate.UncappedTotal | code/src/app/api/csv-geocode-upload/aggregate.ts:17-24 | without the cap the values add up to the number of non-empty addresses |
| Aggregate.TotalOfOnes | code/src/app/api/csv-geocode-upload/aggregate.ts:20 | values that are all 1 add up to the number of keys |
| Aggregate.CappedTotal | code/src/app/api/csv-geocode-upload/aggregate.ts:19-20 | with the cap the values add up to the number of distinct addresses |
| Aggregate.Round3 | code/src/app/api/csv-geocode-upload/aggregate.ts:29-31 | `round3`: `Math.round(n * 1000) / 1000`; its meaning is stated by `Round3Close`, `Round3Idempotent` and `Round3TiesUp` |
| Aggregate.Round3Close | code/src/app/api/csv-geocode-upload/aggregate.ts:29-31 | the rounded coordinate is within half a thousandth of the input |
| Aggregate.Round3Idempotent | code/src/app/api/csv-geocode-upload/aggregate.ts:29-31 | rounding a rounded coordinate changes nothing |
| Aggregate.RoundOfInteger | code/src/app/api/csv-geocode-upload/aggregate.ts:30 | `Math.round` leaves a whole number unchanged |
| Aggregate.Round3TiesUp | code/src/app/api/csv-geocode-upload/aggregate.ts:30 | an exact half-thousandth rounds toward +infinity, below zero too |
| Aggregate.Merged | code/src/app/api/csv-geocode-upload/aggregate.ts:41-54 | the values of the bin map, one merged bin per rounded cell in first-occurrence order; its meaning is stated by `BinTableMeaning`, `OneBinPerCell` and `MergeKeepsWeight` |
| Aggregate.BinsOf | code/src/app/api/csv-geocode-upload/aggregate.ts:41-52 | one bin per cell, in the cells' order, each the merge of that cell's points |
| Aggregate.BinByRounded | code/src/app/api/csv-geocode-upload/aggregate.ts:34-59 | the loop over the points and the threshold yield the merged bins, filtered when the threshold applies |
| Aggregate.AddPoint | code/src/app/api/csv-geocode-upload/aggregate.ts:41-52 | one point adds its count to the bin of its rounded cell, or opens a bin at that cell that is appended to the insertion order, as the bin table `AddToTable` describes |
| Aggregate.Values | code/src/app/api/csv-geocode-upload/aggregate.ts:54 | the table's values are read in key insertion order |
| Aggregate.BinsLoopStep | code/src/app/api/csv-geocode-upload/aggregate.ts:41-52 | one turn of the loop adds the point's cell to the key order when new and updates the table as the fold says |
| Aggregate.OrderInTable | code/src/app/api/csv-geocode-upload/aggregate.ts:54 | every key in the insertion order has a bin in the table |
| Aggregate.TableDomain | code/src/app/api/csv-geocode-upload/aggregate.ts:44-51 | a cell is in the table exactly when it is in the key order |
| Aggregate.BinTableMeaning | code/src/app/api/csv-geocode-upload/aggregate.ts:41-52 | the table holds exactly the points' cells, each with the sum of its points' counts |
| Aggregate.ValuesInOrder | code/src/app/api/csv-geocode-upload/aggregate.ts:54 | the values of the finished table in insertion order are the merged bins |
| Aggregate.BinStep | code/src/app/api/csv-geocode-upload/aggregate.ts:45-51 | a point adds its count to its cell's existing bin, or starts a new bin with its count |
| Aggregate.DegreesInjective | code/src/app/api/csv-geocode-upload/aggregate.ts:38 | distinct rounded coordinates stay distinct, so the string key identifies the cell |
| Aggregate.OneBinPerCell | code/src/app/api/csv-geocode-upload/aggregate.ts:38-51 | no two bins share a rounded position |
| Aggregate.BinsAreRounded | code/src/app/api/csv-geocode-upload/aggregate.ts:42-50 | every bin sits at the rounded position of one of the points, and rounding it again changes nothing |
| Aggregate.BinsOfWeight | code/src/app/api/csv-geocode-upload/aggregate.ts:46-50 | the bins' weights add up to the counts of the points in their cells |
| Aggregate.MergeKeepsWeight | code/src/app/api/csv-geocode-upload/aggregate.ts:41-54 | merging keeps the total weight and never makes more bins than points |
| Aggregate.NoThresholdKeepsAll | code/src/app/api/csv-geocode-upload/aggregate.ts:55-58 | without an applicable threshold the merged bins are returned as they are, keeping the total weight |
| Aggregate.AppliesExactly | code/src/app/api/csv-geocode-upload/aggregate.ts:55 | the threshold applies exactly to a number above 1, finite or +infinity, and never to NaN or undefined |
| Aggregate.ThresholdDropsLightBins | code/src/app/api/csv-geocode-upload/aggregate.ts:55-57 | with k > 1 exactly the merged bins of weight at least k survive |
| Boundary.StripCharSlice | code/src/app/dashboard-insights/components/displays/school-display.tsx:52 | stripping leading and trailing hyphens leaves a contiguous piece of the string |
| Boundary.Slug | code/src/app/dashboard-insights/components/displays/school-display.tsx:46-52 | the file-name slug of a county; its meaning is stated by `SlugShape` |
| Boundary.CountyZipFile | code/src/app/dashboard-insights/components/displays/school-display.tsx:46-52 | the ZIP boundary file of a county; `GwinnettFile` gives the documented example |
| Boundary.SlugShape | code/src/app/dashboard-insights/components/displays/school-display.tsx:46-52 | the county's file-name slug holds only [a-z0-9-], never starts or ends with a hyphen and never holds two hyphens in a row |
| Boundary.GwinnettFile | code/src/app/dashboard-insights/components/displays/school-display.tsx:46-52 | the ZIP boundary file of "Gwinnett" is /data/zips/ga-zips-gwinnett.geojson |
| Boundary.First | code/src/app/dashboard-insights/components/displays/school-display.tsx:179-183 | `find(...) ?? null` returns a matching element, and null exactly when no element matches |
| Boundary.FirstIsEarliest | code/src/app/dashboard-insights/components/displays/school-display.tsx:179-183 | `find` returns the earliest matching element |
| Boundary.BoundaryFeature | code/src/app/dashboard-insights/components/displays/school-display.tsx:171-197 | the boundary lookup: no feature on a non-ok answer, an error on a failed fetch, else the first matching feature; its meaning is stated by `LookupMatches` and `PaddedZctaMatches` |
| Boundary.LookupMatches | code/src/app/dashboard-insights/components/displays/school-display.tsx:171-197 | a county selection finds the first feature whose NAME equals the county without regard to case; a ZIP selection the first whose zero-padded zcta equals the selected one |
| Boundary.PaddedZctaMatches | code/src/app/dashboard-insights/components/displays/school-display.tsx:193-194 | a zcta property of 3045 matches the selection "03045", and 30045 matches "30045" |
| Boundary.Polygonal | code/src/app/dashboard-insights/components/displays/school-display.tsx:210-217 | only a Polygon or MultiPolygon geometry is used as the boundary |
| Boundary.CountInside | code/src/app/dashboard-insights/components/displays/school-display.tsx:232-236 | the number of points inside never exceeds the number of features |
| Boundary.CountInsideStep | code/src/app/dashboard-insights/components/displays/school-display.tsx:235 | one more feature adds one exactly when it is a point inside the boundary |
| Boundary.CountInsideAppend | code/src/app/dashboard-insights/components/displays/school-display.tsx:233-236 | the count over a concatenation is the sum of the counts |
| Boundary.CountInsideExactly | code/src/app/dashboard-insights/components/displays/school-display.tsx:233-236 | the count is 0 when no feature is a point inside, and all of the features when every one is |
| Boundary.CountHouseholds | code/src/app/dashboard-insights/components/displays/school-display.tsx:225-240 | the household loop returns `Households`: null for a failed load or a non-point feature, else the count inside |
| Boundary.HouseholdsBounded | code/src/app/dashboard-insights/components/displays/school-display.tsx:225-240 | the count is null exactly when the load failed or some feature is not a point, and otherwise lies between 0 and the number of features |
| CsvParse.Cleaned | code/src/app/api/csv-geocode-upload/parse.ts:32-39 | a cleaned row has one cell per key of the tokenised row |
| CsvParse.CleanedRows | code/src/app/api/csv-geocode-upload/parse.ts:32 | one cleaned row per tokenised row |
| CsvParse.CleanRow | code/src/app/api/csv-geocode-upload/parse.ts:33-38 | the loop over the keys builds the cleaned row |
| CsvParse.ParseCsv | code/src/app/api/csv-geocode-upload/parse.ts:21-44 | the result is every cleaned row that keeps a value, whatever errors the tokeniser reported |
| CsvParse.CleanedEntry | code/src/app/api/csv-geocode-upload/parse.ts:34-37 | a cleaned row keeps the keys in order; a value is the trimmed string when the cell was a string and undefined otherwise |
| CsvParse.BlankRowDropped | code/src/app/api/csv-geocode-upload/parse.ts:42-44 | a row whose cells are all non-strings or blank after trimming has no value and is dropped |
| CsvParse.RowWithTextKept | code/src/app/api/csv-geocode-upload/parse.ts:42-44 | a row with a cell that is non-blank after trimming is kept |
| CsvParse.KeptExactly | code/src/app/api/csv-geocode-upload/parse.ts:32-44 | a row is returned exactly when it is the cleaning of some tokenised row and has a value |
| CsvParse.OrderKept | code/src/app/api/csv-geocode-upload/parse.ts:42-44 | rows are handled independently, so the survivors keep their relative order |
| CsvParse.KeptPlusDropped | code/src/app/api/csv-geocode-upload/parse.ts:42-44 | every tokenised row is either kept or dropped |
| GeoJson.ToFeatureCollection | code/src/app/api/csv-geocode-upload/geojson.ts:18-27 | one feature per bin |
| GeoJson.FeatureBins | code/src/app/api/csv-geocode-upload/geojson.ts:7-11 | reading the bins back gives one bin per feature |
| GeoJson.FeatureOfBin | code/src/app/api/csv-geocode-upload/geojson.ts:21-25 | feature i is a Point at [lon, lat] of bin i, weighted by that bin's weight |
| GeoJson.EmittedIsWellFormed | code/src/app/api/csv-geocode-upload/geojson.ts:18-27 | the emitted collection carries the constant type tags and two-element positions |
| GeoJson.BinsRecovered | code/src/app/api/csv-geocode-upload/geojson.ts:18-27 | no bin is dropped, reordered or altered: the bins are read back exactly |
| GeoJson.FeaturesRecovered | code/src/app/api/csv-geocode-upload/geojson.ts:7-16 | every well-formed collection is the emission of the bins it holds |
| GeoJson.EmissionOfConcat | code/src/app/api/csv-geocode-upload/geojson.ts:21 | emission distributes over concatenation |
| DryRun.Entries | code/src/app/api/csv-geocode-upload/route.ts:60 | one sample entry per key of the table |
| DryRun.DryRunPost | code/src/app/api/csv-geocode-upload/route.ts:26-85 | a missing or non-file upload is a 400 "No CSV uploaded", a throw is a 500 with its message or "Dry-run failed", and a file gets the summary of its parsed rows |
| DryRun.SummaryOf | code/src/app/api/csv-geocode-upload/route.ts:41-78 | the dry-run summary of the rows; its meaning is stated by `RowsAccountedFor`, `SummaryCounts`, `SampleOrdered` and `SampleIsTop` |
| DryRun.Summarize | code/src/app/api/csv-geocode-upload/route.ts:41-78 | filtering, counting and sampling produce `SummaryOf` the rows |
| DryRun.FilterRows | code/src/app/api/csv-geocode-upload/route.ts:42-52 | the row loop keeps the accepted addresses in row order and counts the rejected rows |
| DryRun.RowsAccountedFor | code/src/app/api/csv-geocode-upload/route.ts:45-52 | every parsed row is either kept or dropped |
| DryRun.KeptAreNonEmpty | code/src/app/api/csv-geocode-upload/route.ts:47-48 | an accepted address is never empty, so the table records every kept address |
| DryRun.FilterKeepsAll | code/src/app/api/csv-geocode-upload/aggregate.ts:18 | a filter that every element passes keeps the sequence as it is |
| DryRun.SummaryCounts | code/src/app/api/csv-geocode-upload/route.ts:54-57 | kept + dropped = total rows, uniqueToSend is the number of distinct kept addresses, and duplicateRows = kept - unique is never negative |
| DryRun.BeforeIsStrictOrder | code/src/app/api/csv-geocode-upload/route.ts:61-65 | the sample comparator (higher count first, then address) is a strict weak order in which only equal entries tie, so it is consistent and the sort is well defined |
| DryRun.SampleEntriesCounted | code/src/app/api/csv-geocode-upload/route.ts:60-67 | the sample has at most 100 entries, each a kept address with how often it was kept |
| DryRun.SampleOrdered | code/src/app/api/csv-geocode-upload/route.ts:61-65 | the sample runs from the highest count down, equal counts in ascending address order |
| DryRun.SampleIsTop | code/src/app/api/csv-geocode-upload/route.ts:60-66 | no entry left out of the sample comes before an entry in it |
| LocationIq.GeocodeOne | code/src/app/api/csv-geocode-upload/locationiq.ts:14-37 | `geocodeOne`: the key check, then the reading of the answer; its meaning is stated by `KeyCheckedFirst`, `NullExactlyOnFailure` and `OnlyFirstHit` |
| LocationIq.KeyCheckedFirst | code/src/app/api/csv-geocode-upload/locationiq.ts:15-16 | without a key `geocodeOne` throws "LOCATIONIQ_KEY missing in env" whatever the service would answer |
| LocationIq.NullExactlyOnFailure | code/src/app/api/csv-geocode-upload/locationiq.ts:24-37 | with a key the result is null exactly when the answer is unusable (throw, non-ok status, no hits, non-finite coordinates), else the first hit's position |
| LocationIq.OnlyFirstHit | code/src/app/api/csv-geocode-upload/locationiq.ts:30-34 | hits after the first are never read |
| LocationIq.PauseMs | code/src/app/api/csv-geocode-upload/locationiq.ts:50 | the pause between requests; its meaning is stated by `PauseBounded` |
| LocationIq.PauseBounded | code/src/app/api/csv-geocode-upload/locationiq.ts:50 | the pause is undefined only for NaN, lies between 0 and 1000 ms, is ceil(1000 / rps) for rps >= 1 and 1000 ms for rps <= 1 |
| LocationIq.GeocodeBatch | code/src/app/api/csv-geocode-upload/locationiq.ts:46-71 | one request per key, in key order, each result stored under its key; the requests, progress lines and pauses form `Trace`; without a key a non-empty batch throws before any request |
| LocationIq.LogStep | code/src/app/api/csv-geocode-upload/locationiq.ts:54-69 | one iteration appends exactly its own request, its progress line when due and its pause when not last, the slice of `Trace` for that index |
| LocationIq.TraceStep | code/src/app/api/csv-geocode-upload/locationiq.ts:54-68 | each turn of the loop appends its own request, progress line and pause to the trace |
| LocationIq.RequestsAppend | code/src/app/api/csv-geocode-upload/locationiq.ts:54-68 | requests and pauses of a concatenated trace are those of its parts |
| LocationIq.StepCounts | code/src/app/api/csv-geocode-upload/locationiq.ts:56-68 | a turn makes exactly one request and pauses unless it is the last |
| LocationIq.TraceRequestsAndPauses | code/src/app/api/csv-geocode-upload/locationiq.ts:54-69 | every key is requested exactly once, in key order, and n keys get n - 1 pauses |
| LocationIq.ProgressExactly | code/src/app/api/csv-geocode-upload/locationiq.ts:60-63 | a progress line "d/n" is printed exactly when d is a multiple of 100 or the last |
| Pipeline.Get | code/src/app/api/csv-geocode-upload/geocode/route.ts:28-30 | a value read from the query string is one given for that name |
| Pipeline.DecodeOptions | code/src/app/api/csv-geocode-upload/geocode/route.ts:28-31 | the query options cap, rps and k; their meaning is stated by `OptionDefaults`, `FirstValueWins` and `GetAfterMiss` |
| Pipeline.OptionDefaults | code/src/app/api/csv-geocode-upload/geocode/route.ts:28-31 | the cap is on only for cap=1; an absent or empty rps means Number("2"); an absent or empty k means no threshold |
| Pipeline.FirstValueWins | code/src/app/api/csv-geocode-upload/geocode/route.ts:28-30 | the first value of a repeated parameter is the one read |
| Pipeline.GetAfterMiss | code/src/app/api/csv-geocode-upload/geocode/route.ts:28-30 | parameters of other names before the first match do not change what is read |
| Pipeline.Found | code/src/app/api/csv-geocode-upload/geocode/route.ts:61-65 | no more found addresses than keys |
| Pipeline.MergeGeocodes | code/src/app/api/csv-geocode-upload/geocode/route.ts:60-65 | the merge loop keeps position and count of each key with a geocode, in key order, and drops the address |
| Pipeline.Merge | code/src/app/api/csv-geocode-upload/geocode/route.ts:60-65 | the successful keys with their positions and counts; its meaning is stated by `MergeIsFoundPoints` and `FoundExactly` |
| Pipeline.MergeIsFoundPoints | code/src/app/api/csv-geocode-upload/geocode/route.ts:60-65 | the merged points are the successful keys' positions with their counts, at most one per distinct address |
| Pipeline.FoundExactly | code/src/app/api/csv-geocode-upload/geocode/route.ts:62-63 | a key is merged exactly when its geocode succeeded |
| Pipeline.FileName | code/src/app/api/csv-geocode-upload/geocode/route.ts:82-83 | the stored file name built from the stamp, k, rps and cap; `PipelinePost` states that the report names it |
| Pipeline.Stamp | code/src/app/api/csv-geocode-upload/geocode/route.ts:82 | the stamp is as long as the timestamp |
| Pipeline.StampSafe | code/src/app/api/csv-geocode-upload/geocode/route.ts:82 | the stamp has no colon or dot left, and every other character is the timestamp's own |
| Pipeline.CollectCleaned | code/src/app/api/csv-geocode-upload/geocode/route.ts:47-51 | the loop collects the accepted addresses in row order |
| Pipeline.Run | code/src/app/api/csv-geocode-upload/geocode/route.ts:44-103 | a missing key with addresses to send is a 500; a failed write is a 500 with its message; otherwise the file holds the filtered bins as features and the report gives uniqueAddresses 0 (the table was cleared), the merged and bin counts, k and the URL |
| Pipeline.PipelinePost | code/src/app/api/csv-geocode-upload/geocode/route.ts:25-107 | a missing or non-file upload is a 400, a throw a 500 with its message or "Pipeline failed"; a successful report names the file written under the timestamped name |
| Pipeline.ReportCounts | code/src/app/api/csv-geocode-upload/geocode/route.ts:60-71 | at most one geocoded point per distinct address, and the k filter never adds bins |
| SchoolDisplay.LowerCharIdempotent | code/src/app/dashboard-insights/components/displays/school-display.tsx:59 | lower-casing a lower-cased character changes nothing |
| SchoolDisplay.ToLowerIdempotent | code/src/app/dashboard-insights/components/displays/school-display.tsx:59 | lower-casing a lower-cased name changes nothing |
| SchoolDisplay.Classify | code/src/app/dashboard-insights/components/displays/school-display.tsx:58-64 | the level guessed from a school name; its meaning is stated by `ClassifyIgnoresCase`, `NamelessIsOther` and `HighNeedsWordBoundary` |
| SchoolDisplay.ClassifyIgnoresCase | code/src/app/dashboard-insights/components/displays/school-display.tsx:58-64 | a name and its lower-cased spelling get the same level |
| SchoolDisplay.NamelessIsOther | code/src/app/dashboard-insights/components/displays/school-display.tsx:59-63 | a missing name and an empty one classify as "other" |
| SchoolDisplay.HighNeedsWordBoundary | code/src/app/dashboard-insights/components/displays/school-display.tsx:62 | "high" inside a longer word such as "highland" is no high school, while "north high" is |
| SchoolDisplay.CountSchools | code/src/app/dashboard-insights/components/displays/school-display.tsx:248-276 | the school loop produces the breakdown `BreakdownOf` the documents |
| SchoolDisplay.BreakdownCounts | code/src/app/dashboard-insights/components/displays/school-display.tsx:255-276 | each level's field is the number of counted schools of that level, the total is the number of counted schools and the sum of the four levels |
| SchoolDisplay.CountedBounded | code/src/app/dashboard-insights/components/displays/school-display.tsx:257-268 | no more schools are counted than there are documents, and none without numeric coordinates |
| SchoolDisplay.SchoolDisplay.constructor | code/src/app/dashboard-insights/components/displays/school-display.tsx:167 | both statistics start as null |
| SchoolDisplay.SchoolDisplay.Refresh | code/src/app/dashboard-insights/components/displays/school-display.tsx:167-292 | no selection clears both values; a throwing lookup leaves them; a missing or non-polygonal boundary clears both; otherwise households and the school breakdown are computed, each null when its own load fails |
| LibraryDisplay.LibraryDisplay.constructor | code/src/app/dashboard-insights/components/displays/library-display.tsx:84 | the household count starts as null |
| LibraryDisplay.LibraryDisplay.Refresh | code/src/app/dashboard-insights/components/displays/library-display.tsx:84-161 | no selection or no polygonal boundary clears the count, a throwing lookup leaves it, otherwise it is the household count inside the boundary |
| CountyOverlay.PushAllStep | code/src/app/dashboard-insights/components/map/overlays/county-overlay.tsx:66-72 | pushing one more vertex applies `push` to the bounds so far |
| CountyOverlay.PushRing | code/src/app/dashboard-insights/components/map/overlays/county-overlay.tsx:75 | the loop over a ring pushes its vertices in order |
| CountyOverlay.PushAllAppend | code/src/app/dashboard-insights/components/map/overlays/county-overlay.tsx:74-79 | pushing two runs of vertices is pushing the first, then the second |
| CountyOverlay.PushRings | code/src/app/dashboard-insights/components/map/overlays/county-overlay.tsx:75-78 | the nested loops push every vertex, ring after ring |
| CountyOverlay.GeometryBBox | code/src/app/dashboard-insights/components/map/overlays/county-overlay.tsx:61-84 | the method returns the box `BBox` of the geometry |
| CountyOverlay.PushAllSummarizes | code/src/app/dashboard-insights/components/map/overlays/county-overlay.tsx:62-72 | pushed from the start values, the bounds stay unset without vertices and otherwise enclose every vertex, each bound being some vertex's coordinate |
| CountyOverlay.BBox | code/src/app/dashboard-insights/components/map/overlays/county-overlay.tsx:61-84 | the bounding box of a polygon or multipolygon; its meaning is stated by `BBoxCovers` and `BBoxNullCases` |
| CountyOverlay.BBoxCovers | code/src/app/dashboard-insights/components/map/overlays/county-overlay.tsx:61-84 | a polygon's box is null exactly when it has no vertex; otherwise every vertex lies inside and each bound is attained |
| CountyOverlay.BBoxNullCases | code/src/app/dashboard-insights/components/map/overlays/county-overlay.tsx:73-83 | a null geometry, any other type and a polygon without vertices give null |
| CountyOverlay.UnitSquare | code/src/app/dashboard-insights/components/map/overlays/county-overlay.tsx:61-84 | the closed unit square has the box [0, 0, 1, 1] |
| CountyOverlay.SquareBounds | code/src/app/dashboard-insights/components/map/overlays/county-overlay.tsx:66-72 | pushing the unit square's ring gives the bounds 0, 0, 1, 1 |
| CountyOverlay.KeysDistinguish | code/src/app/dashboard-insights/components/map/overlays/county-overlay.tsx:119-123 | a selection key is never empty, and for county names without ':' two keys are equal exactly when the selections are |
| CountyOverlay.SelectionKey | code/src/app/dashboard-insights/components/map/overlays/county-overlay.tsx:119-122 | the key of a selection; its meaning is stated by `KeyParts`, `KeysDistinguish` and `ColonCollision` |
| CountyOverlay.KeyParts | code/src/app/dashboard-insights/components/map/overlays/county-overlay.tsx:119-122 | a key is "county:" and the name, or "zip:", the name, ':' and the zcta |
| CountyOverlay.ColonCollision | code/src/app/dashboard-insights/components/map/overlays/county-overlay.tsx:119-123 | a colon in a county name lets two different ZIP selections share a key, so the second one is skipped |
| CountyOverlay.CountyOverlay.constructor | code/src/app/dashboard-insights/components/map/overlays/county-overlay.tsx:107 | the remembered key starts empty and nothing is shown or fitted |
| CountyOverlay.CountyOverlay.ClearLayers | code/src/app/dashboard-insights/components/map/overlays/county-overlay.tsx:90-101 | the boundary is removed from the map and nothing else changes |
| CountyOverlay.CountyOverlay.Select | code/src/app/dashboard-insights/components/map/overlays/county-overlay.tsx:110-230 | a null selection clears the boundary and forgets the key; a repeated key changes nothing; a new one shows the looked-up feature and fits the camera to its box when it has one |
| DistributionOverlay.HouseholdCount | code/src/app/dashboard-insights/components/map/overlays/distribution-overlay.tsx:92-111 | without a map, an area geometry or a callback, or when loading throws, nothing is reported; otherwise the number of Point features inside the area |
| DistributionOverlay.SkippedFeatures | code/src/app/dashboard-insights/components/map/overlays/distribution-overlay.tsx:102 | null features and non-Point geometries never change the count, wherever they sit |
| DistributionOverlay.SquareExample | code/src/app/dashboard-insights/components/map/overlays/distribution-overlay.tsx:100-106 | of three points, two inside the area and one outside, the count is 2 |
| DistributionOverlay.Jitter | code/src/app/dashboard-insights/components/map/overlays/distribution-overlay.tsx:143-155 | a radius that is not a positive number returns the point unchanged |
| DistributionOverlay.JitterIdentity | code/src/app/dashboard-insights/components/map/overlays/distribution-overlay.tsx:148 | zero, a negative radius, NaN and -Infinity leave every point in place whatever the random draw |
| Dropdown.GroupRows | code/src/app/dashboard-insights/components/filters/searchable-dropdown.tsx:41-48 | the `forEach` over the rows builds the grouping `GroupOf` the rows |
| Dropdown.GroupKeys | code/src/app/dashboard-insights/components/filters/searchable-dropdown.tsx:41-48 | the grouping's keys are the counties of rows with both a county and a ZIP, in first-seen order, and every key has a list |
| Dropdown.GroupLists | code/src/app/dashboard-insights/components/filters/searchable-dropdown.tsx:44-47 | each key lists its county's ZIPs in file order; a county without a key has none |
| Dropdown.GroupExactly | code/src/app/dashboard-insights/components/filters/searchable-dropdown.tsx:39-48 | one key per contributing county in first-seen order, each listing exactly that county's ZIPs in file order |
| Dropdown.SortEach | code/src/app/dashboard-insights/components/filters/searchable-dropdown.tsx:51-56 | the loop over the keys sorts every county's ZIP list and nothing else |
| Dropdown.ZipLessIsStrictOrder | code/src/app/dashboard-insights/components/filters/searchable-dropdown.tsx:54 | the numeric ZIP comparison, a NaN difference counting as equal, is irreflexive and transitive |
| Dropdown.ZipLessTiesOnNumbers | code/src/app/dashboard-insights/components/filters/searchable-dropdown.tsx:54 | among ZIPs that `parseInt` reads, two tie exactly when they read the same number, so on such lists the comparator is consistent |
| Dropdown.ZipLessInconsistent | code/src/app/dashboard-insights/components/filters/searchable-dropdown.tsx:54 | a ZIP read as NaN ties with every ZIP: "x" ties with "1" and with "2", which are ordered, so the comparator is not a strict weak order |
| Dropdown.LoadedZipsSorted | code/src/app/dashboard-insights/components/filters/searchable-dropdown.tsx:31-63 | after loading, a county has a list exactly when a row names it, and the list is its ZIPs as a multiset, sorted by the numeric comparison (in ascending numeric order when every ZIP is read as a number) |
| Dropdown.CountyLessIsStrictOrder | code/src/app/dashboard-insights/components/filters/searchable-dropdown.tsx:89-91 | the case-insensitive county comparison is a strict weak order in which names tie exactly when they agree up to case |
| Dropdown.FilteredCounties | code/src/app/dashboard-insights/components/filters/searchable-dropdown.tsx:93-95 | at most 300 counties are offered |
| Dropdown.CountyNamesSorted | code/src/app/dashboard-insights/components/filters/searchable-dropdown.tsx:89-91 | the county names are every county once, ordered without regard to case |
| Dropdown.FilteredCountiesMeaning | code/src/app/dashboard-insights/components/filters/searchable-dropdown.tsx:93-95 | every offered county contains the query without regard to case, and when at most 300 match, all of them are offered |
| Dropdown.FilteredZipsMeaning | code/src/app/dashboard-insights/components/filters/searchable-dropdown.tsx:97-98 | no ZIP options without a selected county, otherwise exactly that county's ZIPs that contain the query as typed |
| Dropdown.Zcta | code/src/app/dashboard-insights/components/filters/searchable-dropdown.tsx:83 | a ZIP shorter than five characters is left-padded to five, a longer one is kept |
| Dropdown.ZctaExamples | code/src/app/dashboard-insights/components/filters/searchable-dropdown.tsx:83 | "30045" stays as it is and "3045" becomes "03045" |
| Dropdown.SearchableDropdown.constructor | code/src/app/dashboard-insights/components/filters/searchable-dropdown.tsx:25-29 | no data, no selection, empty queries, nothing reported |
| Dropdown.SearchableDropdown.Load | code/src/app/dashboard-insights/components/filters/searchable-dropdown.tsx:31-63 | the data becomes the sorted grouping of the rows and nothing else changes |
| Dropdown.SearchableDropdown.TypeCountyQuery | code/src/app/dashboard-insights/components/filters/searchable-dropdown.tsx:126 | typing sets the county query and nothing else |
| Dropdown.SearchableDropdown.TypeZipQuery | code/src/app/dashboard-insights/components/filters/searchable-dropdown.tsx:175 | typing sets the ZIP query and nothing else |
| Dropdown.SearchableDropdown.ChooseCounty | code/src/app/dashboard-insights/components/filters/searchable-dropdown.tsx:65-86 | choosing the current county changes nothing; another county clears the ZIP and its query and is reported, after the old ZIP is reported under the new county when one was selected |
| Dropdown.SearchableDropdown.ChooseZip | code/src/app/dashboard-insights/components/filters/searchable-dropdown.tsx:78-86 | choosing a new ZIP under a selected county reports it zero-padded with the county |
| Dropdown.SearchableDropdown.ClearZip | code/src/app/dashboard-insights/components/filters/searchable-dropdown.tsx:101-105 | the ZIP and its query are cleared, and the county is reported again when a ZIP was selected |
| Dropdown.SearchableDropdown.ClearCounty | code/src/app/dashboard-insights/components/filters/searchable-dropdown.tsx:107-114 | both selections and queries are cleared and the parent is told to clear once |
| LegacyDropdown.FileOrder | code/src/app/dashboard-insights/components/searchable-dropdown.tsx:20-28 | counties come in first-seen order, each with its ZIPs in file order |
| LegacyDropdown.SameCountiesOffered | code/src/app/dashboard-insights/components/searchable-dropdown.tsx:37-41 | when at most 300 counties match, the legacy list offers the same counties as the sorted one |
| LegacyDropdown.LegacyDropdown.constructor | code/src/app/dashboard-insights/components/searchable-dropdown.tsx:8-12 | no data, no selection, empty queries |
| LegacyDropdown.LegacyDropdown.Load | code/src/app/dashboard-insights/components/searchable-dropdown.tsx:15-33 | the data becomes the unsorted grouping of the rows |
| LegacyDropdown.LegacyDropdown.ChooseCounty | code/src/app/dashboard-insights/components/searchable-dropdown.tsx:51 | choosing a county keeps the ZIP chosen under the previous one |
| LegacyDropdown.LegacyDropdown.ChooseZip | code/src/app/dashboard-insights/components/searchable-dropdown.tsx:90 | choosing a ZIP sets it and nothing else |
| Demographics.Keep | code/src/app/api/upload/route.tsx:45-47 | the record filter; its meaning is stated by `DropsEmptyRecords` and `KeepsPositiveAmount` |
| Demographics.DropsEmptyRecords | code/src/app/api/upload/route.tsx:45-47 | a record with no case number, no ZIP and an empty or zero amount is dropped by the filter |
| Demographics.KeepsPositiveAmount | code/src/app/api/upload/route.tsx:45-47 | a record whose amount parses to a positive number is kept even without case number or ZIP |
| Demographics.ZipMapLastWins | code/src/app/api/upload/route.tsx:51-55 | in the ZIP-to-city lookup each padded, trimmed key maps to the trimmed city of the last mapping row with that key |
| Demographics.ZipMapDomain | code/src/app/api/upload/route.tsx:51-55 | the lookup has an entry for exactly the keys of the mapping rows |
| Demographics.CityOf | code/src/app/api/upload/route.tsx:77 | the city is the lookup's entry for the ZIP, or "Unmatched Zip"; a ZIP missing from the lookup always gives "Unmatched Zip" |
| Demographics.PaddedZip | code/src/app/api/upload/route.tsx:75 | the ZIP of a record is padded on the left to at least five characters |
| Demographics.ChoiceOf | code/src/app/api/upload/route.tsx:89-96 | the race or employment choice; its meaning is stated by `ChoiceOfMeaning` and `FirstYesUnique` |
| Demographics.ChoiceOfMeaning | code/src/app/api/upload/route.tsx:89-96 | the chosen race or employment status is the first column answered "YES" (case-insensitive, trimmed), or "Unknown" when none is |
| Demographics.PickColumn | code/src/app/api/upload/route.tsx:89-96 | the loop with break returns the first column answered "YES", or "Unknown" |
| Demographics.FirstYesUnique | code/src/app/api/upload/route.tsx:89-96 | the first-"YES" choice is determined: two choices that both satisfy it are equal |
| Demographics.IncomeBin | code/src/app/api/upload/route.tsx:98-104 | an unparseable income (NaN) and only that gives "Unknown"; +Infinity falls in "125K+", -Infinity in "0-25K" |
| Demographics.LimitsReached | code/src/app/api/upload/route.tsx:98-104 | the number of income limits a value reaches is at most the number of limits |
| Demographics.IncomeBinByLimits | code/src/app/api/upload/route.tsx:98-104 | a finite income falls in the bin right after the last of the limits 25K, 50K, 75K, 100K, 125K that it reaches |
| Demographics.LimitsMonotone | code/src/app/api/upload/route.tsx:98-104 | a larger income never falls in an earlier income bin |
| Demographics.CleanedIsFixed | code/src/app/api/upload/route.tsx:320 | a lower-cased, trimmed county name is unchanged by lower-casing and trimming again |
| Demographics.NormalizeCounty | code/src/app/api/upload/route.tsx:312-322 | `normalizeCountyName`; its meaning is stated by `NormalizeCountyIdempotent` and `NormalizeMisspelling` |
| Demographics.NormalizeCountyIdempotent | code/src/app/api/upload/route.tsx:312-322 | normalizing a county name twice gives the same as normalizing once |
| Demographics.NormalizeMisspelling | code/src/app/api/upload/route.tsx:312-322 | the misspelling "Gwinett" in any case is corrected to "gwinnett" |
| Demographics.DerivationReadBack | code/src/app/api/upload/route.tsx:74-129 | the race and employment status written into a record read back as the values chosen |
| Demographics.EnrichKeeps | code/src/app/api/upload/route.tsx:74-129 | an enriched record keeps every cell of the original that the route does not write |
| Demographics.Enrich | code/src/app/api/upload/route.tsx:74-129 | the per-record enrichment; its meaning is stated by `DerivationReadBack`, `EnrichKeeps` and `EnrichChoices` |
| Demographics.EnrichChoices | code/src/app/api/upload/route.tsx:89-115 | the race and employment status of an enriched record are the first columns of the original answered "YES" |
| Demographics.EnrichRecord | code/src/app/api/upload/route.tsx:74-129 | the loop body returns the record with the padded ZIP, its city, the first-"YES" race and employment status, the income bin, the education and the period labels written in, and every other cell kept (`Enrich`) |
| Demographics.EnrichAll | code/src/app/api/upload/route.tsx:74-130 | enriching keeps one record per kept record, and the i-th enriched record is the enrichment of the i-th kept record |
| Demographics.EnrichAllStep | code/src/app/api/upload/route.tsx:74-130 | enriching one more record appends its enrichment |
| Demographics.TotalsStep | code/src/app/api/upload/route.tsx:80-87 | accounting one more record keeps the running totals equal to the count of records with a case number, the sum of household sizes and the per-ZIP tally of unmatched records |
| Demographics.TotalsMeaning | code/src/app/api/upload/route.tsx:70-87 | the totals after all records count the records with a case number, sum the people reached and tally the unmatched records by padded ZIP |
| Demographics.TotalsOfStep | code/src/app/api/upload/route.tsx:80-87 | the totals of a longer prefix are the totals of the shorter one with the new record accounted |
| Demographics.CountRecord | code/src/app/api/upload/route.tsx:80-87 | the counting part of the loop body increments the helped count for a case number, adds the household size and bumps the unmatched ZIP's count |
| Demographics.Prepare | code/src/app/api/upload/route.tsx:45-130 | the route keeps the non-empty records in order, enriches each, and returns totals whose meaning is the count of helped records, the sum reached and the unmatched-ZIP tally |
| DemoGroups.KeyIndex | code/src/app/api/upload/route.tsx:132-142 | the index found for a key is the first entry carrying it, or the length when no entry does |
| DemoGroups.SummaryKeysStep | code/src/app/api/upload/route.tsx:132-142 | counting one more record keeps the summary's keys equal to the distinct record keys in order of first occurrence |
| DemoGroups.SummarySumsStep | code/src/app/api/upload/route.tsx:132-142 | counting one more record keeps every entry's value equal to the sum of its key's record weights |
| DemoGroups.SummarizesStep | code/src/app/api/upload/route.tsx:132-142 | counting one more record preserves the summary invariant: one entry per distinct key, in first-occurrence order, with the helped count and the household-size sum of its records |
| DemoGroups.SummariesOf | code/src/app/api/upload/route.tsx:132-142 | the group-by summaries as a fold over the records; its meaning is stated by `SummariesMeaning` and `GroupTotals` |
| DemoGroups.SummariesMeaning | code/src/app/api/upload/route.tsx:132-142 | the group-by result is a summary of its records in the sense above |
| DemoGroups.SumOverEntries | code/src/app/api/upload/route.tsx:132-142 | adding up per-entry values that are per-key sums gives the sum over those keys |
| DemoGroups.HelpedWeightCounts | code/src/app/api/upload/route.tsx:137 | summing 1 per record with a case number counts those records |
| DemoGroups.GroupTotals | code/src/app/api/upload/route.tsx:132-142 | whatever the key, the entries' people helped add up to total_people_helped and their people reached to total_people_reached |
| DemoGroups.SummariesOfStep | code/src/app/api/upload/route.tsx:132-142 | the summary of a longer prefix is the shorter prefix's summary with the new record counted |
| DemoGroups.GroupBy | code/src/app/api/upload/route.tsx:132-142 | the one-pass loop returns `SummariesOf`: one entry per distinct key in first-occurrence order, with the helped count and household-size sum of its records |
| DemoGroups.CountUnder | code/src/app/api/upload/route.tsx:135-139 | one row adds its helped and reached figures to the entry of its key, or opens that entry at the end, as `AddRow` describes |
| DemoGroups.TallyOfStep | code/src/app/api/upload/route.tsx:150-152 | tallying one more label bumps that label's count |
| DemoGroups.LabelTableDomain | code/src/app/api/upload/route.tsx:191-204 | a group has a label counter exactly when some record falls in it |
| DemoGroups.LabelTable | code/src/app/api/upload/route.tsx:191-204 | the per-group label counters as a fold over the records; its meaning is stated by `LabelTableDomain`, `LabelTableCounts` and `LabelCountsAddUp` |
| DemoGroups.LabelTableCounts | code/src/app/api/upload/route.tsx:191-204 | a group's counter is the tally of the labels of its records, in first-occurrence order |
| DemoGroups.LabelsInSize | code/src/app/api/upload/route.tsx:191-204 | a group has as many labels as it has records |
| DemoGroups.LabelCountsAddUp | code/src/app/api/upload/route.tsx:191-204 | a group's counter entries are its distinct labels with their numbers of occurrences, and the counts add up to its number of records |
| DemoGroups.CountLabels | code/src/app/api/upload/route.tsx:144-158 | the counter loop of the per-period, per-ZIP and per-county breakdowns returns `LabelTable`: for each group, the tally of its records' labels |
| DemoGroups.WithDemographics | code/src/app/api/upload/route.tsx:160-185 | the detailed summary has one entry per group-by entry |
| DemoGroups.HelpedAtMostGroupSize | code/src/app/api/upload/route.tsx:132-142 | the people helped in a group never exceed its number of records |
| DemoGroups.BreakdownOfAddsUp | code/src/app/api/upload/route.tsx:160-185 | each of a group's race, income, education and employment breakdowns counts each of its records once |
| DemoGroups.DemographicsAddUp | code/src/app/api/upload/route.tsx:160-185 | each detailed entry's four breakdowns add up to the number of records under its key, which is at least one and at least its people helped |
| DemoGroups.PeriodTable | code/src/app/api/upload/route.tsx:237-306 | the nested per-period table as a fold over the records; its meaning is stated by `PeriodTableMeaning` and `PeriodTotals` |
| DemoGroups.PeriodTableMeaning | code/src/app/api/upload/route.tsx:237-306 | the nested per-period table has exactly the periods that occur, each holding the summary of that period's records |
| DemoGroups.PeriodTotals | code/src/app/api/upload/route.tsx:237-306 | within a period, the entries' people helped add up to that period's records with a case number |
| DemoGroups.GroupByPeriod | code/src/app/api/upload/route.tsx:324-380 | the one-pass loop that fills the nested per-period ZIP or county table returns `PeriodTable`: for each period that occurs, the summary of that period's records |
| DemoGroups.PeriodDetails | code/src/app/api/upload/route.tsx:286-303 | a period's structured result has one entry per summary entry of that period |
| DemoGroups.PeriodDemographicsAddUp | code/src/app/api/upload/route.tsx:286-303 | the breakdowns attached to an entry of a period add up to the number of that period's records under the entry's key |
| Charts.FindEntry | code/src/components/ui/DemographicCharts.tsx:37 | find returns the first entry that matches, or none when no entry matches |
| Charts.FindEntrySame | code/src/components/ui/DemographicCharts.tsx:37 | two match tests that agree on every entry find the same entry |
| Charts.AddCount | code/src/components/ui/DemographicCharts.tsx:129 | adding one item to the label counts raises the total count by exactly the item's count |
| Charts.Query | code/src/components/ui/DemographicCharts.tsx:30-122 | the entries and matcher chosen by the selection; `SelectStats`, `CountyTakesPrecedence` and `CountyMatchIgnoresCase` state what the selection yields |
| Charts.SelectStats | code/src/components/ui/DemographicCharts.tsx:30-142 | with no county, no ZIP and an all-time timeframe the stats are the per-label aggregate of the ZIP summary; otherwise they are the breakdowns of the first entry the selection matches, or empty lists when none matches |
| Charts.CountyTakesPrecedence | code/src/components/ui/DemographicCharts.tsx:34-68 | when a county is selected the ZIP selection has no effect, and entries are matched by county name |
| Charts.CountyMatchIgnoresCase | code/src/components/ui/DemographicCharts.tsx:32-37 | the county selection matches whatever its letter case |
| Charts.AddCountKeys | code/src/components/ui/DemographicCharts.tsx:129 | adding an item keeps the labels when its label is already counted, and appends the label otherwise |
| Charts.AggregatesKeysStep | code/src/components/ui/DemographicCharts.tsx:125-133 | adding one item keeps the labels equal to the distinct labels of the items in first-occurrence order |
| Charts.AggregatesCountsStep | code/src/components/ui/DemographicCharts.tsx:125-133 | adding one item keeps each label's count equal to the sum of the counts of the items with that label |
| Charts.AggregatesStep | code/src/components/ui/DemographicCharts.tsx:125-133 | adding one item preserves the aggregate invariant: distinct labels in first-occurrence order, each with the sum of its items' counts |
| Charts.AddAllMeaning | code/src/components/ui/DemographicCharts.tsx:125-133 | adding up all items gives their distinct labels in first-occurrence order, each with the sum of its counts |
| Charts.Aggregate | code/src/components/ui/DemographicCharts.tsx:125-133 | the per-label aggregate of a category; its meaning is stated by `AggregateMeaning` |
| Charts.AggregateMeaning | code/src/components/ui/DemographicCharts.tsx:125-133 | the aggregate of a category over the ZIP summary entries sums, per label, the counts of every entry's items of that category |
| Charts.AddAllStep | code/src/components/ui/DemographicCharts.tsx:128-130 | adding up one more item is adding it to the counts so far |
| Charts.ItemsOfStep | code/src/components/ui/DemographicCharts.tsx:127-131 | the items of one more entry are appended after the items so far |
| Charts.AddItems | code/src/components/ui/DemographicCharts.tsx:128-130 | the inner forEach adds one entry's items to the counts so far |
| Charts.AggregateCategory | code/src/components/ui/DemographicCharts.tsx:125-133 | the nested forEach computes the aggregate of a category |
| Charts.IncomeRank | code/src/components/ui/DemographicCharts.tsx:376-381 | "Unknown" and "Total" and only they rank after every number |
| Charts.IncomeLessIsStrictOrder | code/src/components/ui/DemographicCharts.tsx:375-384 | the income comparison is a strict weak order (rows tie exactly at equal rank), so the sort is well defined |
| Charts.FilterSorted | code/src/components/ui/DemographicCharts.tsx:386 | removing elements from a sorted list keeps it sorted |
| Charts.IncomeChartData | code/src/components/ui/DemographicCharts.tsx:375-386 | the income bars are sorted by leading number, are a permutation of the data rows other than "Total" (each such row as often as in the data), and put any "Unknown" row after all the others |
| Charts.IncomeBinsInOrder | code/src/components/ui/DemographicCharts.tsx:376-381 | the upload route's income bins sort in bin order, all before "Unknown" |
| Charts.BinRank | code/src/components/ui/DemographicCharts.tsx:379-380 | the k-th income bin label ranks at its lower bound in thousands, 25 per bin |
| Charts.RankOf | code/src/components/ui/DemographicCharts.tsx:379-380 | a label starting with digits ranks at the value of those digits |
| Charts.EmploymentChartData | code/src/components/ui/DemographicCharts.tsx:318-329 | the employment bars are a permutation of the data, largest count first |
| SchoolTransform.TrimEmptyIffBlank | code/src/data/transform.ts:14 | trimming leaves nothing exactly when the text is nothing but white space |
| SchoolTransform.BuildId | code/src/data/transform.ts:13-18 | the id is refused with the "Missing id" error exactly when the NCES id is absent or blank; otherwise it is the trimmed NCES id, non-empty and trimmed |
| SchoolTransform.BuildIdStable | code/src/data/transform.ts:13-18 | building an id from an id already built returns it unchanged |
| SchoolTransform.DropSeparators | code/src/data/transform.ts:76 | dropping separators never lengthens the text and leaves no comma and no space |
| SchoolTransform.DropSeparatorsAppend | code/src/data/transform.ts:76 | dropping separators from a concatenation drops them from each part |
| SchoolTransform.DropSeparatorsOfDigits | code/src/data/transform.ts:76 | a string of digits has no separator to drop |
| SchoolTransform.ToInt | code/src/data/transform.ts:74-79 | a missing value gives null; a present one gives a number exactly when, without commas and spaces and after an optional sign, it starts with a digit |
| SchoolTransform.ToIntIgnoresSeparator | code/src/data/transform.ts:76-77 | a comma or space anywhere in the text does not change the number read |
| SchoolTransform.ToIntDecimal | code/src/data/transform.ts:74-79 | the decimal spelling of every natural number is read back as that number |
| SchoolTransform.ToIntExamples | code/test/transform.test.ts:20-30 | "1,581" reads 1581, "95" reads 95, and "NaN" and a missing value read null |
| SchoolTransform.RecordToSchoolDoc | code/src/data/transform.ts:33-63 | a record is refused with "Missing id" exactly when its id is missing or blank; otherwise the document has the trimmed id, coordinates exactly when the record has a point (lat and lng taken from lat and lon), the enrollment read by toInt, and every other field carried over with a missing one as null |
| SchoolTransform.RecordToSchoolDocExample | code/test/transform.test.ts:33-53 | the unit-test record maps to its id, its coordinates with lat and lng swapped into place, level "HIGH" and enrollment 1581 |
| SchoolTransform.MissingIdRefused | code/test/transform.test.ts:5-18 | a record with no id or a blank id is refused with "Missing id", whatever else it holds |
| LibraryTransform.ZipPrefix | code/src/data/tranformLibraries.ts:27 | a ZIP code taken from a postcode is five digits the postcode starts with |
| LibraryTransform.ZipPrefixOf | code/src/data/tranformLibraries.ts:27 | a postcode starting with five digits yields exactly those five digits, and one that yields a ZIP code starts with digits |
| LibraryTransform.CoordsOf | code/src/data/tranformLibraries.ts:11-21 | a node's position is its own latitude and longitude; a way or relation has a position exactly when it has a center, and it is the center's |
| LibraryTransform.AddressOf | code/src/data/tranformLibraries.ts:24 | the address is the house number, a space and the street, so it is never empty, with "undefined" for a missing tag |
| LibraryTransform.ElementToLibraryDoc | code/src/data/tranformLibraries.ts:3-46 | an element becomes a document exactly when it has a non-zero id, a position and a non-empty name, city and county and a postcode starting with five digits; the document carries the id, type, position, tags and the five-digit ZIP code |
| LibraryTransform.FiveForksTagsRead | code/src/data/tranformLibraries.ts:23-27 | the example tags read a name, city and county, no state, a ZIP+4 postcode cut to five digits, and an address that spells the missing house number "undefined" |
| LibraryTransform.WayExample | code/src/data/tranformLibraries.ts:3-46 | a way with a center and those tags becomes a document positioned at the center, with the ZIP code cut to five digits and the address "undefined" followed by the street |
| LibraryTransform.ZipPlusFour | code/src/data/tranformLibraries.ts:27 | a ZIP+4 postcode is cut to its five digits; a postcode of four digits or one not starting with digits gives no ZIP code |
| Register.LocalLength | code/src/app/register/page.tsx:37 | the local-part scan stops at the first character outside [a-zA-Z0-9._%+-], and every character before it is allowed |
| Register.ValidEmail | code/src/app/register/page.tsx:37 | the e-mail rule; its meaning is stated by `ValidEmailIff` |
| Register.ValidEmailIff | code/src/app/register/page.tsx:37 | the scan accepts an address exactly when it splits into a non-empty local part of allowed characters, "@" and one of satisfeed.org, gmail.com, ggc.edu |
| Register.ValidEmailJoin | code/src/app/register/page.tsx:37 | every non-empty local part of allowed characters joined by "@" to an accepted domain is accepted |
| Register.EmailAccepted | code/src/app/register/page.tsx:37 | a gmail.com address with dots and a plus in the local part is accepted |
| Register.EmailUpperCaseDomain | code/src/app/register/page.tsx:37 | the domain is compared case-sensitively, so an upper-case domain is refused |
| Register.EmailLocalPart | code/src/app/register/page.tsx:37 | an empty local part and one holding a space are refused |
| Register.ValidPasswordExtends | code/src/app/register/page.tsx:38 | appending letters or digits to an accepted password keeps it accepted |
| Register.ValidPassword | code/src/app/register/page.tsx:38 | the password rule; its meaning is stated by `ValidPasswordExtends` and `PasswordExamples` |
| Register.PasswordExamples | code/src/app/register/page.tsx:38 | a password of eight letters and digits with both is accepted; all letters, all digits, seven characters or a space are refused |
| Register.MessagesDistinct | code/src/app/register/page.tsx:40-52 | the three validation messages are distinct, so the message shown tells which check failed |
| Register.FirstFailure | code/src/app/register/page.tsx:40-52 | the email message is shown exactly when the email is refused, the password message exactly when the email passes and the password is refused, the mismatch message exactly when both pass and the confirmation differs, and none exactly when all three checks pass |
| Register.RegisterForm.constructor | code/src/app/register/page.tsx:21-28 | the form starts with every input empty, no error and no account requested |
| Register.RegisterForm.HandleChange | code/src/app/register/page.tsx:30-32 | the input named by the event takes the new value and every other input, the error and the requests are unchanged |
| Register.RegisterForm.HandleSubmit | code/src/app/register/page.tsx:34-66 | a failed check sets its message and requests no account; otherwise exactly one account is requested with the email, password and "first last" display name, and a thrown error's message becomes the error; no account is ever requested for rejected credentials |
| SchoolsMap.Clamp | code/src/app/dashboard-insights/components/map/dashboard-schools-map.tsx:55-56 | the clamped value lies in the interval, and a value already inside is unchanged |
| SchoolsMap.ClampNearest | code/src/app/dashboard-insights/components/map/dashboard-schools-map.tsx:55-56 | no point of the interval is nearer to the value than its clamp |
| SchoolsMap.ClampToGeorgia | code/src/app/dashboard-insights/components/map/dashboard-schools-map.tsx:52-58 | the clamped centre lies in the Georgia box, and a centre already inside is unchanged |
| SchoolsMap.ClampAxesIndependent | code/src/app/dashboard-insights/components/map/dashboard-schools-map.tsx:55-56 | each axis is clamped on its own: a point's longitude never moves its clamped latitude, nor the reverse |
| SchoolsMap.ClampToGeorgiaBest | code/src/app/dashboard-insights/components/map/dashboard-schools-map.tsx:52-58 | clamping is idempotent, and on each axis no point of the box is nearer to the requested centre than the clamped one |
| SchoolsMap.InitialOptions | code/src/app/dashboard-insights/components/map/dashboard-schools-map.tsx:72-80 | the map opens at the given centre and zoom, with panning locked to the Georgia box and no wrapped world copies |
| SchoolsMap.DefaultCenterInGeorgia | code/src/app/dashboard-insights/components/map/dashboard-schools-map.tsx:30-38 | the default centre lies inside the Georgia box, so clamping it changes nothing |
| SchoolsMap.TestedBoundsDiffer | code/test/components/unit/dashboard-map-bounds.test.tsx:70-85 | the bounds the unit test expects are strictly wider than the Georgia box the component passes, while the centre and world-copy options agree |
| JsNum.RoundBounds | code/src/app/api/csv-geocode-upload/aggregate.ts:30 | Math.round gives an integer within half a unit of its argument, ties going up |
| JsNum.CeilBounds | code/src/app/api/csv-geocode-upload/locationiq.ts:50 | Math.ceil gives the least integer at or above its argument |
| JsText.PadStart | code/src/app/api/upload/route.tsx:75 | padStart keeps the text as a suffix, fills the front with the fill character, and gives the target length unless the text is already longer |
| JsText.TrimIsTrimmed | code/src/app/api/upload/route.tsx:320 | trimmed text has no white space at either end, and trimming again changes nothing |
| JsText.TrimSlice | code/src/app/api/upload/route.tsx:320 | trim returns a contiguous slice of its argument |
| JsText.LowerOfUpper | code/src/components/ui/DemographicCharts.tsx:32 | lower-casing an upper-cased string gives the same as lower-casing the original |
| JsParse.ParseInt | code/src/data/transform.ts:77 | `parseInt(s, 10)` gives a number exactly when, after leading white space and an optional sign, the text starts with a digit |
| JsParse.ParseDecimalPrefix | code/src/data/transform.ts:77 | `parseInt(s, 10)` reads the decimal spelling of a natural number back, whatever non-digit text follows it |
| JsParse.ParseIntNoRadix | code/src/app/api/upload/route.tsx:81 | `parseInt(s)` without a radix reads as `parseInt(s, 10)` unless `0x` or `0X` follows the sign, and then gives a number exactly when a hexadecimal digit follows |
| JsParse.HexExamples | code/src/app/api/upload/route.tsx:81 | without a radix "0x10" reads 16 and "0x" reads NaN, where the decimal reading gives 0 for both |
| JsParse.ParseNoRadixDecimal | code/src/app/api/upload/route.tsx:81 | without a radix the decimal spelling of a number is read back whatever non-digit text follows, except a 0 followed by `x` or `X` |
| JsParse.ParseFloat | code/src/app/api/upload/route.tsx:79 | parseFloat gives NaN exactly when, after leading white space and an optional sign, the text starts with neither "Infinity", a digit nor a fraction with a digit |
| JsParse.ParseFloatDecimal | code/src/app/api/upload/route.tsx:79 | parseFloat reads the decimal spelling of a natural number back as that number |
| Sorting.SortSorted | code/src/components/ui/DemographicCharts.tsx:375-384 | with a consistent comparator, the stable sort returns the same elements in order |
| Counter.Bump | code/src/app/api/upload/route.tsx:197 | counting one more label raises the counter's total by one |
| Counter.CountsStep | code/src/app/api/upload/route.tsx:197 | counting one more label keeps the counter equal to the distinct labels in first-occurrence order with their numbers of occurrences |
| Counter.TallyMeaning | code/src/app/api/upload/route.tsx:191-204 | the label counter holds one entry per distinct label in first-occurrence order, each with its number of occurrences, and the counts add up to the number of labels |
| Counter.TallyPositive | code/src/app/api/upload/route.tsx:191-204 | every entry of the label counter has a positive count and a label that occurs |

## Left out

- Network and storage: the LocationIQ request, the GeoJSON and CSV fetches of the displays and overlays, and the Firestore and file-system writes are not performed; their outcomes (a response, a failure, a write error) are inputs of the operations that use them.
- CSV tokenising (`Papa.parse`, `csv-parse`) is an input: the model starts from the rows the tokeniser returns, and its error list is not read, as in the code.
- `turf.booleanPointInPolygon` is a predicate parameter; its behaviour on edges and vertices is not modelled.
- Clocks and timers: the ISO timestamp of the stored file name is an input, and the geocoding batch records its requests, pauses (in milliseconds) and progress lines as a returned trace of events instead of waiting and printing; other console output is not modelled.
- The random offset of the distribution overlay's jitter is a parameter (it comes from `Math.random` and trigonometry); the model states only that a radius that is not positive leaves the point unchanged.
- Floating-point arithmetic: numbers are exact reals or integers; binary64 rounding, the sign of zero and exponent notation in `parseFloat` are not modelled, and the upload route's `Amount` sums and the chart percentages (`toFixed`) are left out.
- Date handling in the upload route (`new Date` parsing, week numbers, ISO date strings, the dataset's first and last dates) depends on the time zone; the date parser is a parameter and the period labels are read from its result.
- Text: case mapping is ASCII-only, the NFKD normalisation in the county file slug is the identity on the ASCII names modelled, and `localeCompare` is plain code-unit order.
- Object key order: JavaScript enumerates the integer-like keys of an object first, in ascending numeric order, and only then the other keys in insertion order. The upload route's counters and group-by outputs, the chart aggregation's `Object.entries(countMap)` (`Charts.AddAllMeaning`, `Charts.AggregateMeaning`) and the legacy dropdown's `Object.keys(data)` (`LegacyDropdown.FileOrder`) are modelled in insertion order. In the ZIP- and year-keyed outputs of the upload route (`yearly_summary`, `zip_summary`, `zip_yearly`, `unmatched_zip_summary`) the program therefore lists the integer-like keys (every five-digit ZIP code without a leading zero, every year) first in ascending numeric order, and then "Unknown", "00000" and any other key that is not integer-like (such as a ZIP with a leading zero) in first-seen order; the model lists all keys in first-seen order, with the same entries and the same values.
- The `City` field that the upload route copies from the first record of each ZIP into the ZIP summary and the per-period ZIP entries is not part of the `DemoGroups` summaries, which keep only the key, the helped count and the household-size sum.
- React and MapLibre: rendering, layers, popups, camera moves, legends and charts are left out; the overlays and dropdowns keep only the state the code reads back (the selection key, the boundary shown, the selected county and ZIP, the reported selection).
- Cancellation flags of the asynchronous effects (`cancelled`) are not modelled: every effect runs to completion.
- The account creation, profile update, verification e-mail and redirect of the registration page are one recorded attempt; the thrown error's message is a parameter of the submit.
- LibraryTransform.ElementToLibraryDoc: the unused `meta` argument is dropped, and an element id is a number in which only 0 is falsy (a NaN id is not modelled).
- SchoolsMap.ClampToGeorgia: `LngLat.convert` and its validation of the requested centre are not modelled, and coordinates are finite reals (no NaN).
- The unused copy of `clampToGeorgia` in the library map component is not part of this model.
- Dropdown.LoadedZipsSorted: the order is the one the model's stable insertion sort leaves under the numeric comparison. When a ZIP is read by `parseInt` as NaN the comparison is not consistent (`Dropdown.ZipLessInconsistent`), so the order the JavaScript engine leaves is implementation-defined and the model's order is the program's only when every ZIP is read as a number (`Dropdown.ZipLessTiesOnNumbers`).
- Charts.IncomeChartData: the order of rows of equal income rank is not stated, although the sort is stable.
- Charts.EmploymentChartData: the order of rows of equal count is not stated, although the sort is stable.
- The repository's Python pandas script repeats the upload route and is not part of this model.
