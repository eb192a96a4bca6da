# Student Finance Tracker — a verified model of its record logic

The Student Finance Tracker is a browser app that keeps income and expense transactions
("records") in `localStorage`. It lists them in a table the user can filter, search and sort, and
shows dashboard figures: the balance, spending per weekday as a bar chart, and two budget meters.
This project models in Dafny the parts of it that compute something, and proves what they promise:

- **Validation** (`Patterns`, `Validators`): the three regular expressions of `scripts/state.js`
  are string predicates. Each is proved equal to a plain description of the language it accepts.
  `validateRecord` runs the checks in a fixed order and is proved to report the first check that fails.
- **Query pipeline** (`Search`): `searchAndSortRecords` applies a category filter, a description
  search and a sort with one of six comparators. `Array.prototype.sort` is modelled by insertion
  sort. That sort is proved to be a stable sort, and any stable sort of the same input is proved
  to produce the same result, so the model does not depend on the engine's algorithm.
- **Record store** (`Storage`): `getRecords`, `saveRecord`, `updateRecord` and `deleteRecord` are
  methods of a `RecordStore` class. Its one field, `blob`, stands for the `localStorage` entry.
- **Dashboard and table** (`Dashboard`, `Presentation`): the totals, the weekday histogram (a
  method that fills a 7-slot array), the bars, the budget percentages and badges, and how a table
  row presents a record. It also covers the branch of `formatCurrency` taken for text that is not
  a number.

`Text` and `Seqs` hold the JavaScript string and array operations the tracker relies on: `\s`,
`trim`, `toLowerCase`, `includes`, string ordering, decimal numerals and `filter`. `Records`
holds the record type and the cents sum.

Conventions of the model:
- Every record field is a string, and an absent field is "". This is how every `field || ''` and
  `field || 0` of the tracker reads it.
- Amounts are whole cents (`Patterns.Cents`). The amount pattern allows at most two decimals, so
  `Patterns.CentsExact` proves that cents are exactly 100 times the decimal value.
- What `new Date(s)` reports is the parameter `readDate`: its local year, month and weekday, or
  `None` for an invalid date. The current month and year are parameters too.
- A failing `localStorage.setItem` is the parameter `writeFails`.

Facts about the tracker worth knowing before reading the model:
- The date check of `validateRecord` tests only that a date is present. It does not check the
  `YYYY-MM-DD` form, so "2024-13-01" is accepted (`Validators.AnyDateAccepted`).
- The tracker has no repeated-word warning, no collapsing of inner white space, no regex-mode
  search, no match highlighting, no threshold notifications, no currency table, no settings, no
  import, and no `createdAt`/`updatedAt` stamps.

## Model

| member | source | states |
|---|---|---|
| `Patterns.DescriptionPatternIff` | scripts/state.js:8 | the description pattern accepts exactly the non-empty strings whose first and last characters are not white space and that contain no line terminator |
| `Patterns.DescriptionIsTrimmed` | scripts/state.js:8 | equivalently: non-empty, left unchanged by `trim`, and a single line |
| `Patterns.ParseAmount` | scripts/state.js:9 | yields a value exactly when the amount pattern matches |
| `Patterns.CentsExact` | scripts/state.js:9 | an accepted amount is a non-negative decimal whose value times 100 is the whole number of cents the model uses |
| `Patterns.AmountTextRoundTrip` | scripts/state.js:9 | every cent count has an accepted amount text that reads back to it |
| `Patterns.AmountRejectedExamples` | scripts/state.js:9 | "05", "12.345", "12.", ".5", "-5", " 5" and "" are rejected: no leading zero, one or two decimals, no sign, no white space |
| `Patterns.AmountAcceptedExamples` | scripts/state.js:9 | "0", "12.5" and "100" are accepted, as 0, 1250 and 10000 cents |
| `Patterns.CategoryPatternIff` | scripts/state.js:10 | the category pattern accepts exactly the ASCII-letter runs joined by single spaces or hyphens: only letters and separators, a letter at each end, no two separators in a row |
| `Patterns.CategoryAcceptedExample` | scripts/state.js:10 | "Rent-Utilities" is accepted |
| `Patterns.CategoryRejectedExamples` | scripts/state.js:10 | "Rent1", " Rent", "Rent--X", "Rent-", "" and a non-ASCII letter are rejected |
| `Validators.FirstFailure` | scripts/validators.js:13-28 | the index of the first failing check, and none exactly when all pass |
| `Validators.ValidateRecord` | scripts/validators.js:12-30 | accepted exactly when the description, amount and category match their patterns and the date is non-empty; a rejection names a check that fails; as a function it cannot change the record |
| `Validators.ValidateIsFirstFailure` | scripts/validators.js:13-28 | the check that rejects is the first failing one in the order description, amount, category, date |
| `Validators.RejectionIsFirstFailure` | scripts/validators.js:13-28 | when the check at position i rejects, it fails and every earlier check passes |
| `Validators.LeadingSpaceRejected` | scripts/validators.js:13-16 | a description with a leading space is rejected at the description check |
| `Validators.ThreeDecimalsRejected` | scripts/validators.js:17-20 | an amount with three decimals is rejected at the amount check |
| `Validators.DigitInCategoryRejected` | scripts/validators.js:21-24 | a category with a digit is rejected at the category check |
| `Validators.AnyDateAccepted` | scripts/validators.js:25-28 | the date check only tests presence: "2024-13-01" passes |
| `Search.ComparatorAntisymmetric` | scripts/search.js:25-42 | swapping the records negates every comparator |
| `Search.ComparatorTransitive` | scripts/search.js:25-42 | every comparator orders transitively |
| `Search.ComparatorTieCongruent` | scripts/search.js:25-42 | records that tie compare alike with every other record |
| `Search.StableSort` | scripts/search.js:25 | the sorted list is a permutation of its input |
| `Search.StableSortSorted` | scripts/search.js:25-42 | the sort's result is ordered by the comparator |
| `Search.StableSortSameRank` | scripts/search.js:25 | records that tie keep their input order |
| `Search.StableSortIsStable` | scripts/search.js:25-42 | the sort's result is a sorted permutation in which every group of ties keeps its input order |
| `Search.StableSortUnique` | scripts/search.js:25-42 | any stable sort of the input equals the model's sort |
| `Search.UnorderedSortIsIdentity` | scripts/search.js:39-40 | the default comparator keeps the input order |
| `Search.SortedByKey` | scripts/search.js:27-38 | sorted means: amount-asc nondecreasing and amount-desc nonincreasing in cents; date-asc/desc ordered by date text, a missing date reading as 1970-01-01; category-asc/desc ordered by category text |
| `Search.FiltersSelect` | scripts/search.js:15-22 | the two filters in turn keep exactly the records passing both tests, in input order; an empty category or query filters nothing |
| `Search.SearchAndSortSpec` | scripts/search.js:11-45 | each record occurs in the result as often as in the input if it passes both filters and not at all otherwise; the result is sorted; ties keep input order |
| `Search.ResultsPassFilters` | scripts/search.js:15-22 | every result comes from the input, has the category case-insensitively, and its lower-cased description contains the lower-cased trimmed query |
| `Search.UnknownSortKeepsOrder` | scripts/search.js:39-40 | an unknown or absent sort type returns the filtered records in input order |
| `Search.BlankQueryKeepsAll` | scripts/search.js:20-22 | a query of white space only is truthy but keeps every record |
| `Search.SearchAndSortIdempotent` | scripts/search.js:11-45 | applying the search twice with the same criteria gives the result of applying it once |
| `Search.AmountAscendingExample` | scripts/search.js:31-32 | amounts "12.5", "0", "100" sorted amount-asc come out as "0", "12.5", "100" |
| `Search.MissingDateExample` | scripts/search.js:27-28 | a missing date ties with "1970-01-01", so the two keep their input order, and "1969-12-31" sorts before it, as epoch 0, what `new Date` makes of a missing date, does |
| `Storage.FindIndex` | scripts/storage.js:47 | the index of the first record with the id, and none exactly when no record has it |
| `Storage.UpdatedSpec` | scripts/storage.js:44-57 | an update fails exactly when no record has the id; otherwise the length is kept, the first record with the id is merged with the patch, and all other records are untouched |
| `Storage.MergeNoChange` | scripts/storage.js:49 | a patch that provides nothing leaves the record as it is |
| `Storage.MergeThen` | scripts/storage.js:49 | merging two patches in turn is merging their combination |
| `Storage.MergeEdit` | scripts/storage.js:49 | an edit from the table keeps the id and takes the four edited fields |
| `Storage.DeleteRemovesId` | scripts/storage.js:66 | after a delete no record has the id |
| `Storage.DeleteKeepsOthers` | scripts/storage.js:66 | a delete keeps every record with another id, with its multiplicity |
| `Storage.DeleteAbsentIsNoOp` | scripts/storage.js:63-71 | deleting an id no record has changes nothing |
| `Storage.DeleteIdempotent` | scripts/storage.js:66 | deleting twice is deleting once |
| `Storage.SaveKeepsValid` | scripts/storage.js:26-37 | saving a validated record, as the form handler does, keeps every stored record valid |
| `Storage.UpdateKeepsValid` | scripts/storage.js:44-57 | applying a validated edit, as the table does, keeps every stored record valid |
| `Storage.DeleteKeepsValid` | scripts/storage.js:63-71 | deleting keeps every stored record valid |
| `Storage.RecordStore.GetRecords` | scripts/storage.js:11-20 | returns the stored array, or [] when nothing is stored, the text does not parse, or it is not an array |
| `Storage.RecordStore.SaveRecord` | scripts/storage.js:26-37 | appends the record after the unchanged earlier records with no duplicate check and returns true; when the write fails it returns false and the store is unchanged; saving a valid record keeps the store valid |
| `Storage.RecordStore.UpdateRecord` | scripts/storage.js:44-57 | stores the first-match merge and returns true; with no matching id, or when the write fails, returns false and the store is unchanged |
| `Storage.RecordStore.DeleteRecord` | scripts/storage.js:63-71 | stores the records with another id, in order, so none has the id; an unreadable blob becomes an empty array; a failed write changes nothing |
| `Dashboard.IncomePlusExpenses` | scripts/ui.js:98-99 | income plus expenses is the sum over all records |
| `Dashboard.BalanceExample` | scripts/ui.js:98-105 | an "Income" record of 100 and a "Food" record of 12.5 give income 100.00, expenses 12.50 and balance 87.50 |
| `Dashboard.SpendingByDay` | scripts/ui.js:117-125 | seven buckets; bucket d holds the amounts of the expenses with a valid date on weekday d |
| `Dashboard.BucketsAddUp` | scripts/ui.js:118-125 | the seven buckets together hold exactly the expenses with a valid date: each lands in one bucket, and income and undated records in none |
| `Dashboard.BucketsWithinExpenses` | scripts/ui.js:118-125 | the histogram never holds more than the expense total |
| `Dashboard.DisplayOrderIsPermutation` | scripts/ui.js:128 | the bar order shows every weekday exactly once |
| `Dashboard.Scale` | scripts/ui.js:127 | the chart's scale is at least one dollar, at least every bucket, and is a bucket unless it is the one-dollar floor |
| `Dashboard.HeightBounds` | scripts/ui.js:133-137 | a bar's height lies in [5, 100] and is 100 exactly for the bucket that sets the scale |
| `Dashboard.ChartBars` | scripts/ui.js:127-141 | seven bars, Monday first, each with its day's name, its bucket and a height in [5, 100] |
| `Dashboard.UpdateSpendingChart` | scripts/ui.js:113-142 | the bars read Mon to Sun, each showing that day's spending at the height `max(spent / max(largest bucket, 1 dollar) * 100, 5)`, which lies in [5, 100] |
| `Dashboard.MonthlyWithinExpenses` | scripts/ui.js:148-151 | the month's spending is part of the expense total |
| `Dashboard.EntertainmentWithinExpenses` | scripts/ui.js:153 | entertainment spending, counted at any date, is part of the expense total |
| `Dashboard.RawPercentThresholds` | scripts/ui.js:156 | the unclamped percentage reaches 100 and 90 exactly at 100% and 90% of the limit, counted in cents |
| `Dashboard.Percent` | scripts/ui.js:156 | the percentage lies in [0, 100], is 100 exactly from the limit on, and is at least 90 exactly from 90% of the limit on |
| `Dashboard.Round` | scripts/ui.js:161 | `Math.round` of a non-negative number is the nearest integer, halves rounding up |
| `Dashboard.BudgetMeterRule` | scripts/ui.js:155-166 | the accent meter shows "Limit Near" and the accent class exactly from 90% of its limit; the plain meter never warns and gets no class; otherwise the badge is "n% Used" with n at most 100; the fill lies in [0, 100] |
| `Dashboard.EntertainmentAtLimit` | scripts/ui.js:161-169 | entertainment spending of exactly 200.00 fills the meter and shows "Limit Near" |
| `Dashboard.EntertainmentJustBelowWarning` | scripts/ui.js:161-169 | 179.99 of entertainment is 89.995%: no warning, yet the badge rounds to "90% Used" |
| `Dashboard.MonthlyOverLimit` | scripts/ui.js:156-168 | monthly spending above 1000 caps at "100% Used" and never warns |
| `Presentation.IconIsFirstMatch` | scripts/ui.js:61-68 | the chain of icon tests is the lookup of the first key of the table food, transport, utilities, entertainment, income, education |
| `Presentation.FirstMatchSpec` | scripts/ui.js:61-68 | the lookup gives the default icon exactly when no key is contained, and otherwise the icon of the first contained key |
| `Presentation.RowIncomeAgrees` | scripts/ui.js:56-59 | a row gets "+" and the success colour exactly when the dashboard counts the record as income |
| `Presentation.MissingCategoryRow` | scripts/ui.js:56-68 | a missing category shows as "Other", with the default icon and a "-" |
| `Presentation.IncomeRowIcon` | scripts/ui.js:57-67 | an income record shows the money-bag icon |
| `Presentation.ParsesAsNumberIff` | scripts/ui.js:26-33 | `formatCurrency` finds the text to be a number (not NaN) exactly when some non-empty prefix of it, after leading white space and at most one sign, is a decimal literal or "Infinity", which is the rule by which `parseFloat` avoids NaN |
| `Presentation.FormatCurrencyFallback` | scripts/ui.js:26-33 | "$0.00" is shown exactly for text with no numeric prefix; every other text goes to the currency formatter |
| `Presentation.ValidAmountIsNumber` | scripts/ui.js:27-28 | every amount that passes validation parses, so it never takes the "$0.00" branch |
| `Presentation.FormatCurrencyExamples` | scripts/ui.js:27-28 | "", "abc" and "-." give "$0.00"; " 12" and "-.5" are numbers |
| `Text.TrimEmptyIff` | scripts/search.js:21 | `trim` yields "" exactly when every character is white space |
| `Text.ContainsIff` | scripts/search.js:21 | `includes` holds exactly when the needle occurs at some index |
| `Text.CompareTransitive` | scripts/search.js:36-37 | the string order standing for `localeCompare` is transitive |
| `Text.NatToString` | scripts/ui.js:161 | the numeral of a number reads back to it and has no leading zero |

## Left out

- `scripts/app.js` (event wiring duplicated from `scripts/ui.js`) and `scripts/loader-check.js`
  (a page-load `alert`) contain no record logic.
- DOM effects are left out: `innerHTML` templates, element lookups, listeners, `alert`/`confirm`,
  navigation, the diagnostics panel and the `Date.now()` ids. So are the `alert` messages of
  `validateRecord`; `Validators.Message` holds their texts.
- `Intl.NumberFormat` output is left out. `Presentation.FormatCurrency` returns its input, marked
  `IntlUsd`, instead of the formatted text. The `.replace('$', '')` on a table amount is left
  out too.
- Floating point is left out. Amounts are whole cents, and a sum of floats, with its rounding
  errors, is an exact sum of cents.
- `parseFloat` of text that is not a valid amount (a prefix such as "12abc", or NaN) is not
  modelled. `Patterns.Cents` reads such text as 0, which is exact only for "". A NaN amount
  would make the amount comparators inconsistent, and that case is left out.
- `Search.Comparator` is weaker than the source for dates: it compares date text in code-point
  order, with a missing date read as "1970-01-01" (epoch 0). That is time order for `YYYY-MM-DD`
  strings. Malformed dates, which `new Date` reads as NaN, and other date formats are not
  modelled.
- `Search.Comparator` is also weaker for categories: it stands for `localeCompare` by code-point
  order. Locale collation is not modelled.
- `toLowerCase` is modelled for ASCII letters only (`Text.Lower`).
- `new Date(s)` with `getDay`, `getMonth` and `getFullYear` is the parameter `readDate`, and the
  clock is the parameters `month` and `year`. A `YYYY-MM-DD` string is parsed as UTC but read in
  local time, so its weekday and month depend on the time zone. That dependence is the
  parameter's and is not modelled.
- `RegExp.test(undefined)` tests the text "undefined", which the category pattern accepts. The
  model treats an absent field as "", so this quirk is not modelled.
- `JSON.parse`/`JSON.stringify` are not modelled. An array whose elements are not records, and
  fields beyond the five, are left out.
- `Storage.RecordStore.UpdateRecord` and `Storage.RecordStore.DeleteRecord` do not model the
  exception handlers separately. A throwing read is already the empty list of `GetRecords`, and
  a throwing write is `writeFails`.
- The bar and meter widths are written into CSS text (`${pct}%`); that number-to-text step is
  not modelled.
- `renderTable` lower-cases and trims the query and defaults the sort type to `date-desc` before
  calling `searchAndSortRecords`. The model takes the criteria as given.
