# CarbonSnapshot emissions core in Dafny

CarbonSnapshot is a single-page React application. It reads a CSV of business activities, estimates the carbon footprint of each row from a fixed table of emission factors, and shows the result on a dashboard. This project models the computational core of the `processEmissions` callback in `CarbonSnapshotApp.tsx` and proves properties of it:

- the header is resolved to the `activity`, `quantity` and `unit` columns;
- each data row is checked and then matched to an emission factor. The match tries the exact key first, then the first category contained in the activity, then the `default` entry;
- the per-row `co2e` is rounded through `parseFloat(x.toFixed(2))`;
- the total and the by-scope and by-category summaries are computed;
- the three errors the callback throws are modelled.

It also models the navigation guard in `Navigation.tsx` and the page, data and error state that these operations update.

The modules follow the program's structure:

| file | module | models |
|---|---|---|
| `wrappers.dfy` | `Wrappers` | `Option` and `Result` |
| `js_string.dfy` | `JsString` | `String.prototype.trim`, `toLowerCase`, `includes`, `Array.prototype.indexOf` |
| `js_number.dfy` | `JsNumber` | `parseFloat`, `Number.prototype.toFixed(2)`, the decimal text of `item-${index}` |
| `emission_factors.dfy` | `EmissionFactors` | `SCOPES`, `MOCK_EMISSION_FACTORS`, the three-tier factor lookup |
| `grouping.dfy` | `Grouping` | the `reduce` into an object and the `Object.entries(...).map(...)` that follows |
| `footprint.dfy` | `Footprint` | `processEmissions` from parsed table to result or error |
| `navigation.dfy` | `Navigation` | `handleNavigation` and the disabled dashboard button |
| `app.dfy` | `App` | the `currentPage` / `emissionsData` / `error` state, its events and the rendered view |
| `scenarios.dfy` | `Scenarios` | worked cases proved on the shipped table: lookup fallbacks, skipped rows, the rounding gap of the total |

Some modelling choices:

- **Numbers.** JavaScript numbers are modelled as exact reals, so `quantity * factor` and the sums are exact. `parseFloat` returns `None` where JavaScript returns `NaN`.
- **The parsed CSV.** It is a sequence of rows of cells, header first. This is what PapaParse hands to `processEmissions` with `header: false` and `skipEmptyLines: true`.
- **The factor table.** It is a parameter of `Footprint.ProcessWith`. `Footprint.ProcessEmissions` applies it to `EmissionFactors.MockEmissionFactors`, the source's fourteen entries in declaration order with their exact factors, units, scopes and categories.
- **Asynchronous upload.** During an upload the loading overlay covers the whole window and stops pointer input. An upload is therefore one atomic event of `App.Step`, enabled only on the upload page. Keyboard input during an upload is outside this event model; `App.KeyboardNavigationDuringUpload` shows what it can lead to.

## Model

| member | source | states |
|---|---|---|
| JsString.TrimStart | ReactPieVisualizer/ReactPieVisualizer/client/src/components/CarbonSnapshotApp.tsx:102 | the result is a suffix of the input, everything removed is white space, and it does not start with white space |
| JsString.TrimEnd | ReactPieVisualizer/ReactPieVisualizer/client/src/components/CarbonSnapshotApp.tsx:102 | the result is a prefix of the input, everything removed is white space, and it does not end with white space |
| JsString.Trim | ReactPieVisualizer/ReactPieVisualizer/client/src/components/CarbonSnapshotApp.tsx:102 | the trimmed string is no longer than the input and neither starts nor ends with white space |
| JsString.TrimEmptyIffBlank | ReactPieVisualizer/ReactPieVisualizer/client/src/components/CarbonSnapshotApp.tsx:112 | a cell trims to the empty string exactly when it is all white space, both directions |
| JsString.TrimIsInfix | ReactPieVisualizer/ReactPieVisualizer/client/src/components/CarbonSnapshotApp.tsx:114-118 | the trimmed cell is a contiguous piece of the original cell with only white space cut off on either side |
| JsString.ToLower | ReactPieVisualizer/ReactPieVisualizer/client/src/components/CarbonSnapshotApp.tsx:102 | lower-casing keeps the length, changes a character only by replacing a capital A to Z with its small letter, and leaves no capital behind |
| JsString.ToLowerNormalizes | ReactPieVisualizer/ReactPieVisualizer/client/src/components/CarbonSnapshotApp.tsx:102 | lower-casing leaves a lower-case string unchanged, so lower-casing twice equals lower-casing once |
| JsString.IndexOf | ReactPieVisualizer/ReactPieVisualizer/client/src/components/CarbonSnapshotApp.tsx:103-105 | no position exactly when the element is absent, otherwise the first position holding it |
| JsNumber.NatToString | ReactPieVisualizer/ReactPieVisualizer/client/src/components/CarbonSnapshotApp.tsx:131 | the decimal text of an index is non-empty, has only digits and no leading zero, and reads back as the index |
| JsNumber.NatToStringInjective | ReactPieVisualizer/ReactPieVisualizer/client/src/components/CarbonSnapshotApp.tsx:131 | different indices print differently |
| JsNumber.ParseFloat | ReactPieVisualizer/ReactPieVisualizer/client/src/components/CarbonSnapshotApp.tsx:115 | a number results exactly when a decimal literal follows the leading white space and optional sign, and NaN otherwise |
| JsNumber.ParseUnsigned | ReactPieVisualizer/ReactPieVisualizer/client/src/components/CarbonSnapshotApp.tsx:115 | a number is read exactly when the text starts with a digit or with a point followed by a digit, and it is never negative |
| JsNumber.Scan | ReactPieVisualizer/ReactPieVisualizer/client/src/components/CarbonSnapshotApp.tsx:115 | the longest literal prefix is found exactly when the text starts numerically, and its digits and fraction length are well formed |
| JsNumber.ParseInteger | ReactPieVisualizer/ReactPieVisualizer/client/src/components/CarbonSnapshotApp.tsx:115 | a digit string followed by text that cannot continue a number parses to the digits' value |
| JsNumber.ParseDecimal | ReactPieVisualizer/ReactPieVisualizer/client/src/components/CarbonSnapshotApp.tsx:115 | `a.b` scans to the literal with digits `ab` and `\|b\|` fraction digits |
| JsNumber.Hundredths | ReactPieVisualizer/ReactPieVisualizer/client/src/components/CarbonSnapshotApp.tsx:137 | the digits toFixed(2) prints for a non-negative value are the whole number of hundredths nearest it, the larger one on a tie |
| JsNumber.Round2 | ReactPieVisualizer/ReactPieVisualizer/client/src/components/CarbonSnapshotApp.tsx:137 | below 10^21 the result is a whole number of hundredths, the one nearest the value, and a tie takes the neighbour farther from zero. It keeps the sign and leaves magnitudes of 10^21 and above alone |
| JsNumber.Round2Idempotent | ReactPieVisualizer/ReactPieVisualizer/client/src/components/CarbonSnapshotApp.tsx:156-159 | rounding an already rounded value changes nothing |
| JsNumber.Round2Odd | ReactPieVisualizer/ReactPieVisualizer/client/src/components/CarbonSnapshotApp.tsx:137 | rounding is symmetric about zero: rounding the negated value gives the negated result |
| JsNumber.ToFixed2 | ReactPieVisualizer/ReactPieVisualizer/client/src/components/CarbonSnapshotApp.tsx:137 | toFixed(2) prints a minus sign exactly for negative values, then one or more integer digits, a point and exactly two fraction digits |
| JsNumber.ToFixed2RoundTrip | ReactPieVisualizer/ReactPieVisualizer/client/src/components/CarbonSnapshotApp.tsx:137 | parseFloat reads back the toFixed(2) text as the value rounded to two decimals |
| EmissionFactors.Lookup | ReactPieVisualizer/ReactPieVisualizer/client/src/components/CarbonSnapshotApp.tsx:123 | the key lookup finds nothing exactly when no entry has that key, otherwise the first entry under the key |
| EmissionFactors.MockWellFormed | ReactPieVisualizer/ReactPieVisualizer/client/src/components/CarbonSnapshotApp.tsx:23-38 | the shipped table has a `default` entry, so the last lookup tier always has an answer |
| EmissionFactors.FirstCategoryMatch | ReactPieVisualizer/ReactPieVisualizer/client/src/components/CarbonSnapshotApp.tsx:124 | no match exactly when no category occurs in the activity, otherwise the first entry, in declaration order, whose lower-cased category occurs in it |
| EmissionFactors.Resolve | ReactPieVisualizer/ReactPieVisualizer/client/src/components/CarbonSnapshotApp.tsx:123-125 | the factor is always a table entry: the exact key wins, else the first category contained in the activity, else `default` |
| EmissionFactors.ResolveElectricity | ReactPieVisualizer/ReactPieVisualizer/client/src/components/CarbonSnapshotApp.tsx:24 | `electricity` resolves to 0.4 kg per kWh, Scope 2, category Energy |
| Footprint.FindColumns | ReactPieVisualizer/ReactPieVisualizer/client/src/components/CarbonSnapshotApp.tsx:102-109 | the header fails exactly when one of the three normalised names is missing, otherwise each column is the first position of its name |
| Footprint.ColumnIndex | ReactPieVisualizer/ReactPieVisualizer/client/src/components/CarbonSnapshotApp.tsx:101-105 | `indexOf` over the normalised header finds nothing exactly when no cell normalises to the name, otherwise the first such cell |
| Footprint.Columns.Width | ReactPieVisualizer/ReactPieVisualizer/client/src/components/CarbonSnapshotApp.tsx:112 | the length a row needs is one more than the largest of the three column positions, so every needed cell exists |
| Footprint.ItemIdInjective | ReactPieVisualizer/ReactPieVisualizer/client/src/components/CarbonSnapshotApp.tsx:131 | two rows get the same `item-` id only if they are the same row |
| Footprint.Usable | ReactPieVisualizer/ReactPieVisualizer/client/src/components/CarbonSnapshotApp.tsx:112-121 | a row passes the filter exactly when its three cells exist, some cell is not all white space, the activity and unit cells are not all white space, and the quantity parses |
| Footprint.ProcessRow | ReactPieVisualizer/ReactPieVisualizer/client/src/components/CarbonSnapshotApp.tsx:111-138 | a row is accepted exactly when it is long enough, not blank, and has an activity, a parseable quantity and a unit. It then yields the row's id, raw cells, quantity, the resolved scope and category, and the rounded `quantity * factor` |
| Footprint.Keep | ReactPieVisualizer/ReactPieVisualizer/client/src/components/CarbonSnapshotApp.tsx:111-139 | the pushes keep exactly the accepted rows, each once, in input order |
| Footprint.AcceptRows | ReactPieVisualizer/ReactPieVisualizer/client/src/components/CarbonSnapshotApp.tsx:111-139 | the records are exactly the rows `ProcessRow` accepts, in strictly increasing row order, none missing |
| Footprint.ProcessWith | ReactPieVisualizer/ReactPieVisualizer/client/src/components/CarbonSnapshotApp.tsx:94-143 | no rows fail with the no-data error, a header without the three columns fails with the missing-columns error, and success carries at least one record |
| Footprint.ProcessEmissions | ReactPieVisualizer/ReactPieVisualizer/client/src/components/CarbonSnapshotApp.tsx:87-170 | on the shipped table, whatever the activities say, every record and every byCategory entry of a successful call is in one of the four categories Energy, Travel, Operations and Other |
| Footprint.CategoriesWithin | ReactPieVisualizer/ReactPieVisualizer/client/src/components/CarbonSnapshotApp.tsx:123-159 | every record of a successful call and every byCategory entry carries a category some table entry has |
| Footprint.SuccessUnfolds | ReactPieVisualizer/ReactPieVisualizer/client/src/components/CarbonSnapshotApp.tsx:98-160 | a successful call reports the records of the accepted rows in order, `totalCO2e` as the rounded sum of the unrounded `quantity * factor` products, and the two summaries of the records |
| Footprint.Summary | ReactPieVisualizer/ReactPieVisualizer/client/src/components/CarbonSnapshotApp.tsx:155-160 | the object stored on success holds the accepted records in order, and byScope and byCategory summarise them |
| Footprint.OutcomeOfRows | ReactPieVisualizer/ReactPieVisualizer/client/src/components/CarbonSnapshotApp.tsx:111-143 | once the header is resolved, the call succeeds exactly when some data row is usable, and otherwise fails with the no-valid-activities error |
| Footprint.IdsFollowIndices | ReactPieVisualizer/ReactPieVisualizer/client/src/components/CarbonSnapshotApp.tsx:131 | records made from increasing row positions have distinct ids in the same order |
| Footprint.RowRecordsSound | ReactPieVisualizer/ReactPieVisualizer/client/src/components/CarbonSnapshotApp.tsx:111-139 | every record is what a usable row produced, under the id of that row's position |
| Footprint.RowRecordsOrdered | ReactPieVisualizer/ReactPieVisualizer/client/src/components/CarbonSnapshotApp.tsx:111-139 | record ids are distinct and follow the row order |
| Footprint.RowRecordsComplete | ReactPieVisualizer/ReactPieVisualizer/client/src/components/CarbonSnapshotApp.tsx:111-139 | every usable row has a record |
| Footprint.DetailedFromRows | ReactPieVisualizer/ReactPieVisualizer/client/src/components/CarbonSnapshotApp.tsx:111-157 | each record of a successful call is what a usable data row produced, with the id `item-k` of its position k (skipped rows still counted) |
| Footprint.DetailedInInputOrder | ReactPieVisualizer/ReactPieVisualizer/client/src/components/CarbonSnapshotApp.tsx:111-157 | the `detailed` ids are distinct and increase with the row position |
| Footprint.DetailedComplete | ReactPieVisualizer/ReactPieVisualizer/client/src/components/CarbonSnapshotApp.tsx:111-157 | no usable data row is missing from `detailed` |
| Footprint.Summaries | ReactPieVisualizer/ReactPieVisualizer/client/src/components/CarbonSnapshotApp.tsx:145-159 | `byScope` and `byCategory` hold one entry per distinct scope or category of the records, in first-seen order, each the rounded sum of its records' co2e. Before rounding, both sets of group sums add up to the same total |
| Footprint.RoundingDrift | ReactPieVisualizer/ReactPieVisualizer/client/src/components/CarbonSnapshotApp.tsx:127-137 | the sum of the rounded per-row co2e is within 0.005 per row of the unrounded running total |
| Footprint.TotalWithinRounding | ReactPieVisualizer/ReactPieVisualizer/client/src/components/CarbonSnapshotApp.tsx:156 | `totalCO2e` differs from the sum of the records' co2e by at most 0.005 times one more than the number of records |
| Grouping.FirstSeen | ReactPieVisualizer/ReactPieVisualizer/client/src/components/CarbonSnapshotApp.tsx:145-148 | the first item with a given name, and none before it |
| Grouping.Add | ReactPieVisualizer/ReactPieVisualizer/client/src/components/CarbonSnapshotApp.tsx:146 | one reduce step adds the value to the group of that name, appending a new group only for a new name, and keeps names distinct |
| Grouping.Group | ReactPieVisualizer/ReactPieVisualizer/client/src/components/CarbonSnapshotApp.tsx:145-148 | the reduce yields groups with distinct names |
| Grouping.GroupNames | ReactPieVisualizer/ReactPieVisualizer/client/src/components/CarbonSnapshotApp.tsx:145-148 | a name has a group exactly when some item carries it |
| Grouping.GroupValues | ReactPieVisualizer/ReactPieVisualizer/client/src/components/CarbonSnapshotApp.tsx:145-148 | each group's value is the sum of the values of the items with its name |
| Grouping.GroupFirstSeenOrder | ReactPieVisualizer/ReactPieVisualizer/client/src/components/CarbonSnapshotApp.tsx:145-148 | groups appear in the order their names first occur among the items |
| Grouping.GroupTotal | ReactPieVisualizer/ReactPieVisualizer/client/src/components/CarbonSnapshotApp.tsx:145-148 | grouping neither loses nor adds value: the group sums add up to the sum of all items |
| Grouping.RoundValues | ReactPieVisualizer/ReactPieVisualizer/client/src/components/CarbonSnapshotApp.tsx:158-159 | the entries keep their names and order, each value rounded to two decimals |
| Grouping.SummarizeSpec | ReactPieVisualizer/ReactPieVisualizer/client/src/components/CarbonSnapshotApp.tsx:145-159 | the summary has distinct names, exactly those of the items, in first-seen order, each holding the rounded sum of its items. Before rounding it conserves the total |
| Scenarios.MockDefault | ReactPieVisualizer/ReactPieVisualizer/client/src/components/CarbonSnapshotApp.tsx:37 | the shipped fallback is factor 1 per unit, Scope 3, category Other |
| Scenarios.ResolveTravelFallback | ReactPieVisualizer/ReactPieVisualizer/client/src/components/CarbonSnapshotApp.tsx:123-125 | `business travel - air` is no key but contains `travel`, so it takes the first Travel entry in declaration order: gasoline, 2.3 per liter, Scope 1 |
| Scenarios.ResolveElectricityUsage | ReactPieVisualizer/ReactPieVisualizer/client/src/components/CarbonSnapshotApp.tsx:123-125 | `electricity usage`, the first activity of the sample CSV, is no key and contains no category name, so it falls through to the default entry rather than the electricity factor |
| Scenarios.NonNumericQuantitySkipped | ReactPieVisualizer/ReactPieVisualizer/client/src/components/CarbonSnapshotApp.tsx:115-121 | a row whose quantity is `abc` is skipped |
| Scenarios.BlankRowSkipped | ReactPieVisualizer/ReactPieVisualizer/client/src/components/CarbonSnapshotApp.tsx:112 | a row of empty and blank cells is skipped |
| Scenarios.TotalDiffersFromRecordSum | ReactPieVisualizer/ReactPieVisualizer/client/src/components/CarbonSnapshotApp.tsx:127-156 | two rows of 0.004 kg show 0 kg each while `totalCO2e` is 0.01 kg, so the total is not the sum of the shown record values |
| Navigation.HandleNavigation | ReactPieVisualizer/ReactPieVisualizer/client/src/components/Navigation.tsx:11-17 | a dashboard request without data leaves the page unchanged, and every other request switches to the requested page |
| Navigation.Click | ReactPieVisualizer/ReactPieVisualizer/client/src/components/Navigation.tsx:55-64 | a click on the disabled dashboard button changes nothing |
| Navigation.DisabledMatchesGuard | ReactPieVisualizer/ReactPieVisualizer/client/src/components/Navigation.tsx:13-16 | the button is disabled exactly when the guard would refuse, so every click does what `handleNavigation` alone does |
| Navigation.NoDashboardWithoutData | ReactPieVisualizer/ReactPieVisualizer/client/src/components/Navigation.tsx:11-17 | a click lands on the dashboard only with data, or when the dashboard was already showing |
| Navigation.ClickReachesButton | ReactPieVisualizer/ReactPieVisualizer/client/src/components/Navigation.tsx:39-64 | a click reaches its button's page exactly when there is data, the button is not the dashboard's, or the dashboard is already showing |
| App.Render | ReactPieVisualizer/ReactPieVisualizer/client/src/components/CarbonSnapshotApp.tsx:413-437 | the dashboard view is rendered exactly when the page is the dashboard and there is data, and no page content shows exactly when the page is the dashboard and there is none |
| App.Enabled | ReactPieVisualizer/ReactPieVisualizer/client/src/components/CarbonSnapshotApp.tsx:413-444 | the events the pointer can cause: navigation always, the upload call-to-action on home and on the dashboard with data, an upload only on the upload page, dismissing only with an error |
| App.Step | ReactPieVisualizer/ReactPieVisualizer/client/src/components/CarbonSnapshotApp.tsx:155-166 | success stores the data, clears the error and opens the dashboard. Failure drops the data, shows the thrown message and keeps the page. A parser error only sets the message, dismissing only clears it, and navigation moves only the page |
| App.StepKeepsInvariant | ReactPieVisualizer/ReactPieVisualizer/client/src/components/CarbonSnapshotApp.tsx:155-166 | every event the pointer can cause keeps the dashboard page paired with data |
| App.FailureOnDashboardBreaksInvariant | ReactPieVisualizer/ReactPieVisualizer/client/src/components/CarbonSnapshotApp.tsx:163-166 | a failed run that ends on the dashboard leaves the dashboard current without data |
| App.KeyboardNavigationDuringUpload | ReactPieVisualizer/ReactPieVisualizer/client/src/components/CarbonSnapshotApp.tsx:161-166 | with data present, moving to the dashboard during an upload and then having the upload fail leaves the dashboard current with no data and no page content; the pointer-only events exclude this sequence |
| App.RunKeepsInvariant | ReactPieVisualizer/ReactPieVisualizer/client/src/components/CarbonSnapshotApp.tsx:430 | any sequence of events the pointer can cause keeps the dashboard page paired with data |
| App.NeverBlank | ReactPieVisualizer/ReactPieVisualizer/client/src/components/CarbonSnapshotApp.tsx:429-437 | from mount on, through events the pointer can cause, page content always shows |
| App.SuccessShowsDashboard | ReactPieVisualizer/ReactPieVisualizer/client/src/components/CarbonSnapshotApp.tsx:155-161 | after a successful upload the dashboard shows exactly the new data, and its navigation button is enabled |

## Left out

- JsNumber.ParseFloat: `Infinity` and `-Infinity` parse to `None` here. The source's parseFloat returns an infinite number, the row is kept, and its co2e becomes infinite or NaN.
- JsNumber.Round2: IEEE-754 double arithmetic is not modelled. Values are exact reals, so sums, products and the ties of `toFixed` are exact, while doubles round every operation.
- JsNumber.ParseFloat: the double range is not modelled. A quantity such as `1e309` is Infinity in JavaScript, so its row is kept with an infinite co2e; here it is a finite real. Underflow to zero and precision loss beyond 2^53 are left out as well.
- JsNumber.ToFixed2: only magnitudes below 10^21 are printed. Above that, `toFixed` switches to exponent notation, which is not modelled; `Round2` leaves such values unchanged, as the source does.
- JsString.ToLower: only ASCII letters are lower-cased. The other Unicode case mappings are left out.
- EmissionFactors.Lookup: keys inherited from `Object.prototype` are left out. In the source, an activity such as `constructor` finds a function on the object instead of an entry.
- EmissionFactors.WellFormed: distinct keys are not required. Lookup returns the first entry under a key, while a JavaScript object literal with a repeated key keeps the last value, so the two differ for such tables; the shipped table has no key repeated.
- Grouping.SummarizeSpec: first-seen order assumes no integer-like names. JavaScript lists integer-like object keys first; every scope label and category of the shipped table is non-numeric.
- Footprint.ProcessWith: a null `parsedData` or missing `data` array is not modelled, because a table of rows always exists here. The `console.warn` for skipped rows is output only.
- App.Enabled: the `isLoading` flag, the 1500 ms delay and the `finally` block are collapsed into one atomic upload event. The full-window overlay stops pointer input meanwhile, but it has no focus trap and the navigation bar ignores the loading flag, so keyboard navigation during an upload is not modelled.
- App.StepKeepsInvariant: holds for the events `App.Enabled` allows, not for keyboard navigation during an upload. That case can leave the dashboard current without data, as `App.KeyboardNavigationDuringUpload` shows.
- App.RunKeepsInvariant: `Possible` admits only pointer-driven sequences. A keyboard move to the dashboard during a failing upload breaks the invariant in the source.
- App.NeverBlank: promises page content only for pointer-driven sequences. Through the keyboard, the source can show the dashboard page with null data and only the error banner.
- App.Step: PapaParse itself (file reading and CSV splitting) is not modelled. Its error callback and the missing-library check appear only as a `ParseFailed` event carrying the message, and the `csvData` state is left out.
- PDF report generation is not part of this model. Two of its effects reach the modelled state: it sorts the stored `byCategory` array in place by value (`CarbonSnapshotApp.tsx` lines 274-275), so after an export the dashboard's `byCategory` is no longer in first-seen order, and it sets the error banner when the PDF library is missing or fails (lines 222 and 383), an event `App.Event` does not have.
- The sample CSV download, the company name, all rendering and styling, `Footer.tsx` and `lib/utils.ts` are not part of this model. They compute neither emissions nor page state.
