# Record tables and the onboarding schema, modelled in Dafny

This project models two parts of a React staffing-management front end.

1. **The record-listing engine** shared by the client table (`src/pages/client/client-table.tsx`) and the
   roles table (`src/pages/roles/roles-table.tsx`):
   - `filterData`: a lower-cased, trimmed substring search over every field of the first record;
   - `sortData`: a stable `localeCompare` sort on one field, whose `reversed` flag swaps the comparator's
     arguments, followed by the filter;
   - the `Th` header icon;
   - the component state that `setSorting`, `handleSearchChange`, the drawers and the delete
     confirmation change.
2. **The onboarding schema** (`src/types/onboarding-flow-type.ts`): the zod validators `zOnboardingStatus`,
   `zDocument` and `zOnboarding`. Each is modelled as a checker that returns zod's list of issues (path
   and code), a validity predicate, and a `safeParse` that returns either the typed value or the issues.

## Modules

| file | module | contents |
|---|---|---|
| `wrappers.dfy` | `Wrappers` | `Option`, `Result` |
| `js_text.dfy` | `JsText` | `toLowerCase` (ASCII), `trim` (ECMAScript white space and line terminators), `includes` |
| `stable_sort.dfy` | `StableSort` | `Array.prototype.sort` with a comparator, as a stable insertion sort; sortedness, permutation, stability, reversal |
| `table_engine.dfy` | `TableEngine` | `filterData`, `sortData`, `Th`'s icon choice, and their properties |
| `table_view.dfy` | `TableView` | the class `TableView`: the `useState` hooks of a table component and its event handlers |
| `client_table.dfy` | `ClientTable` | the client table: its six sortable columns, mounting |
| `roles_table.dfy` | `RolesTable` | the roles table: its one sortable column, mounting |
| `onboarding.dfy` | `OnboardingFlow` | JavaScript values, zod issues, the three schemas, their `safeParse` |

The two table components share `filterData`, `sortData` and `Th` code that is identical apart from the record type (`TClient` or `TRoles`). They are modelled
once, with one class whose `sortable` field holds the columns a header can sort by.

The class invariant `Valid()` of `TableView` states two things:
- the sort key, when set, is a sortable column;
- the rows shown are either the `data` prop exactly as passed (before any interaction) or
  `SortData(data, sortBy, reverseSortDirection, search, cmp)`, so they are never stale.

Notes on the code's behaviour:
- **The searched fields.** `filterData` searches the fields of the *first* record
  (`keys(data[0])`), not each record's own fields, so reordering records with different field
  names changes the result (`FilterDependsOnFirstRecord`). Inside `sortData` that first record is the
  first record of the *sorted* copy (`SortDataFiltersOnSortedHead`).
- **The empty query.** Filtering with an empty query returns the list unchanged only when the first
  record has at least one field: `FilterEmptyQueryKeepsAll` has that precondition, and
  `FilterFieldlessFirstRecord` shows that a fieldless first record empties the view.
- **Sorting and filtering commute.** For records that share one set of field names, filtering after
  the sort equals sorting after the filter (`SortDataIsSortedFilter`).
- **Shapes only.** The onboarding schema defines shapes only: it relates no status to another, no
  date to another and no document to another, and the model adds nothing of the kind.

## Model

| member | source | states |
|---|---|---|
| JsText.Lower | src/pages/client/client-table.tsx:160 | `toLowerCase` keeps the length (its meaning is `LowerSpec`) |
| JsText.LowerSpec | src/pages/client/client-table.tsx:160 | `toLowerCase` leaves no upper-case letter, moves each of A-Z to its lower-case letter, and keeps every other character |
| JsText.LowerIdempotent | src/pages/client/client-table.tsx:160 | lower-casing twice is lower-casing once |
| JsText.Trim | src/pages/client/client-table.tsx:160 | `trim` never lengthens the text (its meaning is `TrimSpec`) |
| JsText.Contains | src/pages/client/client-table.tsx:162 | `includes(q)` needs `q` no longer than the text (its meaning is `ContainsIff`) |
| JsText.IsWhitespace | src/pages/client/client-table.tsx:160 | no letter or digit counts as the white space that `trim` removes |
| JsText.TrimStart | src/pages/client/client-table.tsx:160 | `trim`'s first half never lengthens the text |
| JsText.TrimEnd | src/pages/client/client-table.tsx:160 | `trim`'s second half never lengthens the text |
| JsText.TrimStartSpec | src/pages/client/client-table.tsx:160 | `trim`'s first half leaves the longest suffix not starting with white space; everything dropped is white space |
| JsText.TrimEndSpec | src/pages/client/client-table.tsx:160 | `trim`'s second half leaves the longest prefix not ending in white space; everything dropped is white space |
| JsText.TrimSpec | src/pages/client/client-table.tsx:160 | `trim` returns the slice between the leading and the trailing white space, and that slice neither starts nor ends with white space |
| JsText.WhitespaceTrimsToEmpty | src/pages/client/client-table.tsx:160 | a search box holding only blanks gives the empty query |
| JsText.LowerUnchanged | src/pages/client/client-table.tsx:160 | text without upper-case letters is its own lower-casing |
| JsText.TrimUnchanged | src/pages/client/client-table.tsx:160 | text with no white space at either end is its own trimming |
| JsText.ContainsIff | src/pages/client/client-table.tsx:162 | `includes(q)` holds exactly when `q` is a prefix of some suffix of the text |
| JsText.ContainsEmpty | src/pages/client/client-table.tsx:162 | every text includes the empty query |
| JsText.ContainsAt | src/pages/client/client-table.tsx:162 | a query found at some position is included |
| StableSort.Insert | src/pages/client/client-table.tsx:182-189 | inserting one element keeps every element: the multiset grows by exactly that element |
| StableSort.Sort | src/pages/client/client-table.tsx:182-189 | the sorted copy is a permutation of the input |
| StableSort.SortSorted | src/pages/client/client-table.tsx:182-189 | under a consistent comparator, every element of the output goes no later than every element after it |
| StableSort.SortStable | src/pages/client/client-table.tsx:182-189 | the elements that compare equal to any `y` keep their input order |
| StableSort.SortedUnique | src/pages/client/client-table.tsx:182-189 | two sorted permutations of the same list without ties are equal, so the sorted order is unique |
| StableSort.SwappedSortIsReverse | src/pages/client/client-table.tsx:183-188 | without ties, sorting with the comparator's arguments swapped gives the forward result backwards |
| StableSort.SortSameComparator | src/pages/client/client-table.tsx:182-189 | the sort depends only on the comparator's values |
| StableSort.Reverse | src/pages/client/client-table.tsx:183-188 | the reversal puts element `i` at position `n - 1 - i` |
| StableSort.ReverseMultiset | src/pages/client/client-table.tsx:183-188 | reversal is a permutation |
| TableEngine.MissingFieldReadsUndefined | src/pages/client/client-table.tsx:162 | `String(item[key])` reads a missing field as "undefined": a record lacking the searched field is kept exactly when "undefined" contains the query, so the query "def" keeps it |
| TableEngine.FalsySortKeyOnlyFilters | src/pages/client/client-table.tsx:177-179 | `!sortBy` holds for both `null` and the empty key, and either way `sortData` returns the filtered list unsorted |
| TableEngine.Query | src/pages/client/client-table.tsx:160 | the normalised query is no longer than the search text (its meaning is `QuerySpec`) |
| TableEngine.QuerySpec | src/pages/client/client-table.tsx:160 | the normalised query has no upper-case letter and neither starts nor ends with white space |
| TableEngine.Matches | src/pages/client/client-table.tsx:162 | `keys.some(..)` can only hold for a non-empty key set |
| TableEngine.FilterBy | src/pages/client/client-table.tsx:161-163 | `data.filter(..)` never lengthens the list (its meaning is `FilterBySpec`) |
| TableEngine.FilterData | src/pages/client/client-table.tsx:159-164 | `filterData` never lengthens the list (its meaning is `FilterDataSpec`) |
| TableEngine.FilterByMembers | src/pages/client/client-table.tsx:161-163 | every kept record is a record of the input |
| TableEngine.FilterBySpec | src/pages/client/client-table.tsx:161-163 | `data.filter(..)` keeps, in input order, every record that matches on some searched key, as often as it occurs, and no other record |
| TableEngine.FilterDataSpec | src/pages/client/client-table.tsx:159-164 | `filterData` returns a subsequence of `data`. A record is in it exactly when it matches the query on the first record's fields. An empty list gives an empty list |
| TableEngine.FilterDependsOnFirstRecord | src/pages/client/client-table.tsx:159-164 | the same two records with different fields give `[{x: "p"}]` in one order and `[]` in the other |
| TableEngine.FilterBySorted | src/pages/client/client-table.tsx:161-163 | filtering a sorted list leaves it sorted |
| TableEngine.FilterDataSorted | src/pages/client/client-table.tsx:159-164 | `filterData` of a sorted list is sorted |
| TableEngine.FilterDataNoTies | src/pages/client/client-table.tsx:159-164 | when no two records of the input tie, no two kept records tie |
| TableEngine.FilterEmptyQueryKeepsAll | src/pages/client/client-table.tsx:159-164 | an empty or blank query keeps the whole list in order, provided the first record has a field |
| TableEngine.FilterFieldlessFirstRecord | src/pages/client/client-table.tsx:162 | when the first record has no fields, nothing is kept, whatever the query |
| TableEngine.FilterSingleRecord | src/pages/client/client-table.tsx:159-164 | a one-record list is kept exactly when the record matches the query on its own fields |
| TableEngine.FilterFindsPrefix | src/pages/client/client-table.tsx:159-164 | a record with city "Springfield" is found by "spring" |
| TableEngine.FilterIgnoresCaseAndBlanks | src/pages/client/client-table.tsx:159-164 | the same record is found by " FIELD " |
| TableEngine.FilterRejectsNonSubstring | src/pages/client/client-table.tsx:159-164 | the same record is not found by "fields" |
| TableEngine.SortData | src/pages/client/client-table.tsx:167-192 | an empty list gives an empty view. With a (truthy) sort key and a consistent `localeCompare`, the view is ordered by that field, descending when reversed |
| TableEngine.SortDataDrawsFromData | src/pages/client/client-table.tsx:175-191 | the view only holds records of `data`, never more often than they occur. Without a sort key it keeps their input order |
| TableEngine.OrderBy | src/pages/client/client-table.tsx:182-189 | the comparator handed to `sort` looks only at the sort field's text of the two records |
| TableEngine.OrderByConsistent | src/pages/client/client-table.tsx:182-189 | the record comparator built from a consistent `localeCompare` is consistent, in both directions |
| TableEngine.FilterBySortCommute | src/pages/client/client-table.tsx:181-191 | filtering the stable sort equals sorting the filtered list |
| TableEngine.SortDataFiltersOnSortedHead | src/pages/client/client-table.tsx:175-191 | for any records, `sortData` with a key is the stable sort of the records that match on the fields of the sorted copy's first record |
| TableEngine.SortDataIsSortedFilter | src/pages/client/client-table.tsx:181-191 | for records with one set of field names, `sortData` with a key is the stable sort of `filterData`'s result |
| TableEngine.SortDataSortedStablePermutation | src/pages/client/client-table.tsx:181-191 | the sorted view is a permutation of the filtered records, in field order, and records comparing equal keep their input order |
| TableEngine.SortDataReversedSwapsArguments | src/pages/client/client-table.tsx:183-188 | the reversed view is the forward view under `localeCompare` with its arguments swapped |
| TableEngine.SortDataReversedIsBackwards | src/pages/client/client-table.tsx:183-188 | when no two records tie on the sort field, the reversed view is the forward view read backwards |
| TableEngine.HeaderIcon | src/pages/client/client-table.tsx:137-141 | up chevron exactly when sorted and reversed, down chevron exactly when sorted forward, the selector exactly when not sorted |
| TableView.NextDirection | src/pages/client/client-table.tsx:213 | clicking the current sort column flips the direction; clicking another column sorts forward |
| TableView.NextDirectionTwice | src/pages/client/client-table.tsx:213 | two clicks on the same column restore the direction |
| TableView.InitialViewIsUnfilteredSort | src/pages/client/client-table.tsx:203 | the initial rows, `data` itself, are what `sortData` gives with no key and no search, when the first record has a field |
| TableView.TableView.constructor | src/pages/client/client-table.tsx:200-208 | the initial state: empty search, no sort key, forward direction, rows equal to `data`, both drawers closed, empty edit record |
| TableView.TableView.SetSorting | src/pages/client/client-table.tsx:212-217 | `setSorting(field)`: it toggles or resets the direction, sets the key and recomputes the rows from `data`. The search and the drawers are unchanged, and the invariant is kept |
| TableView.TableView.HandleSearchChange | src/pages/client/client-table.tsx:219-225 | it takes the new text, keeps key and direction, recomputes the rows from `data` with the new text, and leaves the drawers unchanged |
| TableView.TableView.OpenEdit | src/pages/client/client-table.tsx:288-291 | it opens the edit drawer on the clicked row, and nothing else changes |
| TableView.TableView.CloseEdit | src/pages/client/client-table.tsx:428 | it closes the edit drawer, and nothing else changes |
| TableView.TableView.SetCreateOpened | src/pages/client/client-table.tsx:323 | the "Add New" button and the create drawer's `onClose` set only the create drawer's flag |
| TableView.TableView.OpenModalForDelete | src/pages/client/client-table.tsx:228-247 | a delete is issued exactly when the user confirms, and it carries the row's `uuid` |
| TableView.TableView.HeaderIconOf | src/pages/client/client-table.tsx:346-352 | a column header shows the chevron of the current direction exactly when it is the sort column |
| ClientTable.Mount | src/pages/client/client-table.tsx:199-208 | a freshly mounted client table is pristine, valid, has its six sortable columns and closed drawers |
| ClientTable.NeverSortedById | src/pages/client/client-table.tsx:339-345 | with the `id` header commented out, the table is never sorted by `id` and that column keeps the neutral icon |
| RolesTable.Mount | src/pages/roles/roles-table.tsx:198-207 | a freshly mounted roles table is pristine, valid, sortable by `name` only, with closed drawers |
| RolesTable.SortKeyIsName | src/pages/roles/roles-table.tsx:331-344 | the roles table's sort key is unset or `name` |
| OnboardingFlow.AtSpec | src/types/onboarding-flow-type.ts:24-67 | a nested validator's issues are reported with their codes, under the property's (or element's) path segment |
| OnboardingFlow.At | src/types/onboarding-flow-type.ts:24-67 | a nested issue list keeps its length (its meaning is `AtSpec` and `AtPaths`) |
| OnboardingFlow.AtPaths | src/types/onboarding-flow-type.ts:24-67 | every issue of a nested validator is reported under the given path segment, directly under it when the nested issues sit at the root |
| OnboardingFlow.CheckString | src/types/onboarding-flow-type.ts:18 | `z.string()` reports nothing exactly on strings, else one issue at the value itself |
| OnboardingFlow.CheckOptionalString | src/types/onboarding-flow-type.ts:19 | `z.string().optional()` reports nothing exactly on `undefined` and strings, else one issue at the value itself |
| OnboardingFlow.CheckDate | src/types/onboarding-flow-type.ts:27 | `z.date()` reports nothing exactly on valid dates, else one issue at the value itself |
| OnboardingFlow.CheckOptionalFile | src/types/onboarding-flow-type.ts:21 | `z.instanceof(File).optional()` reports nothing exactly on `undefined` and files, else one issue at the value itself |
| OnboardingFlow.PrimitiveChecks | src/types/onboarding-flow-type.ts:18-21 | `z.string()`, `z.string().optional()`, `z.date()` and `z.instanceof(File).optional()` each accept exactly the values of their type |
| OnboardingFlow.StatusOf | src/types/onboarding-flow-type.ts:6-15 | a string names a status only as that status's literal |
| OnboardingFlow.StatusName | src/types/onboarding-flow-type.ts:6-15 | every status's name is one of the enum's eight literals |
| OnboardingFlow.StatusNamesExact | src/types/onboarding-flow-type.ts:6-15 | a string is one of the eight literals exactly when it names a status |
| OnboardingFlow.StatusValueExact | src/types/onboarding-flow-type.ts:6-15 | `z.enum([..])` reports no issue exactly on the string values that are one of its eight literals, and those are the strings naming a status |
| OnboardingFlow.CheckStatus | src/types/onboarding-flow-type.ts:6-15 | `z.enum([..])` reports nothing exactly on a string naming a status, else one issue at the value itself |
| OnboardingFlow.StatusNameRoundTrip | src/types/onboarding-flow-type.ts:6-15 | every status's literal is listed and parses back to that status |
| OnboardingFlow.ParseStatus | src/types/onboarding-flow-type.ts:6-15 | a value parses as a status exactly when it is one of the eight strings; otherwise the issues are reported |
| OnboardingFlow.StatusRoundTrip | src/types/onboarding-flow-type.ts:6-15 | each status written as its literal parses back to itself |
| OnboardingFlow.CheckDocument | src/types/onboarding-flow-type.ts:17-22 | `zDocument` stops at a non-object with one `invalid_type` issue; on an object it reports at most four issues, each under `key`, `name`, `document_type` or `file` |
| OnboardingFlow.CheckDocumentIff | src/types/onboarding-flow-type.ts:17-22 | a document has no issue exactly when it is an object whose `key` and `document_type` are strings, whose `name` is absent or a string, and whose `file` is absent or a `File` |
| OnboardingFlow.DecodeDocument | src/types/onboarding-flow-type.ts:17-22 | zod's output for a valid document carries its `key` and `document_type`, its `name` and `file` exactly when present, and no other property |
| OnboardingFlow.ParseDocument | src/types/onboarding-flow-type.ts:17-22 | a value parses as a document exactly when it is valid, giving its decoded document; otherwise its issues are reported |
| OnboardingFlow.EncodeDocument | src/types/onboarding-flow-type.ts:17-22 | a document is written as a plain object |
| OnboardingFlow.DocumentRoundTrip | src/types/onboarding-flow-type.ts:17-22 | a document written as an object parses back to itself |
| OnboardingFlow.CheckElements | src/types/onboarding-flow-type.ts:66 | every issue of an array's elements is reported under the index of one of those elements |
| OnboardingFlow.CheckElementsEmpty | src/types/onboarding-flow-type.ts:66 | an array has no issue exactly when none of its elements has one |
| OnboardingFlow.ElementIssueReported | src/types/onboarding-flow-type.ts:66 | every issue of every element is reported, with its code, under that element's index |
| OnboardingFlow.CheckDocuments | src/types/onboarding-flow-type.ts:66 | `z.array(zDocument)` stops at a non-array with one `invalid_type` issue; on an array every issue is under an element's index |
| OnboardingFlow.CheckDocumentsIff | src/types/onboarding-flow-type.ts:66 | `z.array(zDocument)` reports no issue exactly on the arrays of valid documents, the empty array included |
| OnboardingFlow.DecodeDocuments | src/types/onboarding-flow-type.ts:66 | each element is decoded to its document, in order |
| OnboardingFlow.EncodeDocuments | src/types/onboarding-flow-type.ts:66 | each document is written in order |
| OnboardingFlow.DocumentsRoundTrip | src/types/onboarding-flow-type.ts:66 | a written list of documents is valid and decodes back to itself |
| OnboardingFlow.CheckKindIff | src/types/onboarding-flow-type.ts:25-66 | each property validator of the record reports no issue exactly on the values it accepts |
| OnboardingFlow.ShapeSizes | src/types/onboarding-flow-type.ts:24-67 | the schema's sections hold 6, 9, 12, 5 and 1 properties, 33 in all |
| OnboardingFlow.CheckShape | src/types/onboarding-flow-type.ts:24-67 | every issue of an object shape is reported under one of the shape's keys |
| OnboardingFlow.CheckShapeIff | src/types/onboarding-flow-type.ts:24-67 | an object shape reports no issue exactly when every property is accepted by its validator |
| OnboardingFlow.ShapeAcceptsConcat | src/types/onboarding-flow-type.ts:24-67 | a shape made of two parts is accepted exactly when both parts are |
| OnboardingFlow.OnboardingSections | src/types/onboarding-flow-type.ts:24-67 | the record is accepted exactly when its header, profile, job, immigration and document sections are |
| OnboardingFlow.UnknownKeyIgnored | src/types/onboarding-flow-type.ts:24-67 | a property the shape does not name changes no issue |
| OnboardingFlow.ReplaceAccepted | src/types/onboarding-flow-type.ts:24-67 | replacing a property by a value its validator accepts keeps the properties accepted |
| OnboardingFlow.CheckOnboarding | src/types/onboarding-flow-type.ts:24-67 | `zOnboarding` stops at a non-object with one `invalid_type` issue; on an object every issue is under a property key |
| OnboardingFlow.CheckOnboardingIff | src/types/onboarding-flow-type.ts:24-67 | the record validator reports no issue exactly on valid records |
| OnboardingFlow.MissingFirstReported | src/types/onboarding-flow-type.ts:24-67 | a shape whose first property is a required string reports its absence first, as a missing string at that key |
| OnboardingFlow.MissingUuidReported | src/types/onboarding-flow-type.ts:25 | a record without `uuid` is rejected, and the first issue is a missing string at `uuid` |
| OnboardingFlow.RequiredFields | src/types/onboarding-flow-type.ts:25-35 | a valid record is a plain object. Its `uuid`, `created_by` and `modified_by` are strings and its four dates are valid dates. Its status is one of the literals and its documents are an array of valid documents |
| OnboardingFlow.DocumentsKey | src/types/onboarding-flow-type.ts:66 | the `documents` property is checked by `z.array(zDocument)` |
| OnboardingFlow.EmptyDocumentsAccepted | src/types/onboarding-flow-type.ts:66 | replacing a valid record's documents by the empty array keeps it valid |
| OnboardingFlow.KindOfKeyConcat | src/types/onboarding-flow-type.ts:24-67 | in a shape made of two parts, every property named `k` has a given validator exactly when that holds in both parts |
| OnboardingFlow.RateKeysAreStrings | src/types/onboarding-flow-type.ts:47-54 | every rate and commission is one of the schema's properties, and every property under that name is checked by `z.string()` |
| OnboardingFlow.RateKeyInShape | src/types/onboarding-flow-type.ts:47-54 | each rate and commission appears in the schema as a `z.string()` property |
| OnboardingFlow.RatesRequired | src/types/onboarding-flow-type.ts:47-54 | a record the schema accepts carries every rate and commission as a string |
| OnboardingFlow.RateFieldsUnconstrained | src/types/onboarding-flow-type.ts:47-54 | any text put in a rate or commission property keeps a valid record valid |
| OnboardingFlow.ExtraPropertyIgnored | src/types/onboarding-flow-type.ts:24-67 | a property outside the schema does not affect validation of the record |
| OnboardingFlow.DecodeOnboarding | src/types/onboarding-flow-type.ts:24-67 | the typed record holds exactly the string-typed and the date-typed keys of the schema |
| OnboardingFlow.DecodeOnboardingSpec | src/types/onboarding-flow-type.ts:24-67 | the typed record carries the input's strings, dates and status, and the decoded document of each element of `documents`, in order |
| OnboardingFlow.ParseOnboarding | src/types/onboarding-flow-type.ts:24-67 | a value parses as a record exactly when it is valid, giving its typed record; otherwise the issues are reported, and there is at least one |

## Left out

- Upper-case letters outside A-Z: `toLowerCase` is modelled for ASCII letters only; Unicode case mapping is not modelled.
- `localeCompare`: a comparator parameter `cmp`. The ordering theorems assume it is consistent in the sense of `Array.prototype.sort`; the locale's collation itself is not modelled.
- `String(value)` of non-string fields: a record is a map from field name to its text. Only the text of a missing field, "undefined", is modelled.
- Prop changes: the model treats the `data` prop as fixed for a component's life. React keeps `useState(data)` and `sortedData` across prop changes, so a refetched list does not reach the view until the next sort or search.
- Rendering: JSX, Mantine styling, tooltips, the `colSpan` of the empty-table row, and the hard-coded pagination text are left out.
- `setClient(row)` (src/pages/client/client-table.tsx:258): a call into the global onboarding store, which is not part of this model.
- `deleteClient` / `deleteRoles`, `showNotification`, `openConfirmModal` and the `console.log` on cancel: network, notification and modal I/O. The user's answer is a parameter of `OpenModalForDelete`, and the mutation is represented by the `uuid` it returns.
- The roles table's edit icon (src/pages/roles/roles-table.tsx:277-284) is commented out, so `OpenEdit` has no caller there. The edit drawer's state and `onClose` remain.
- `File` objects: a `File` is an opaque handle (`FileRef`) that counts as an object for `z.object` and is given no properties. A browser `File` does have `name`, which is also a `zDocument` key; because `name` is an optional string, the issues reported are the same either way.
- `Date` objects are represented by their integer time value. An invalid date is a separate value; floating-point time values are not modelled.
- zod's issue messages and its `passthrough` / `strict` modes are left out. Its early stop on a non-object or non-array input is modelled, and so is the default `strip` behaviour: unknown properties are ignored and dropped from the output.
- `TOnboardingFindById` and the `z.infer` type aliases (src/types/onboarding-flow-type.ts:69-78) are types only.
- TableView.TableView.OpenModalForDelete: for a row without `uuid` the source hands the JavaScript value `undefined` to the delete mutation; the model hands over the text "undefined", because a record is modelled as the texts of its fields.
- OnboardingFlow.ElementIssueReported: states that each element's issues are reported under its index for any element validator; it is not restated for `CheckDocument` alone.
- An encode / parse round trip is stated for documents (`DocumentsRoundTrip`) but not for whole onboarding records.
