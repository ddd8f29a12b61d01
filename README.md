# Crime record store: a Dafny model

This project models the record store of the crime file management system: the
`CrimeManagementSystem` object of `script.js`. The model keeps its state:

- the collection `crimes`;
- the search and filter criteria `currentFilter`;
- the id of the record the form is editing, `editingCrimeId`.

It also models the views computed from that state:

- the filtered list (`getFilteredCrimes`);
- the type, status, area and monthly chart tables;
- the three statistics counters;
- the selection of records that get a map marker.

Modules:

- `Wrappers`: the `Option` type. A JavaScript `null` or absent value is `None`.
- `Strings`: the string operations the store relies on, on `seq<char>`. These are
  lower-casing, `includes`, the string operators `<` and `<=`, `trim`, `split` on
  one character, and decimal printing and parsing.
- `Records`: the record (`Crime` = id + `CrimeData`) and the eight sample records.
- `Filtering`: the criteria, the filter chain `Retain`/`Select`, and the
  subsequence and date-bound lemmas.
- `Aggregation`: the counting loop `Tally`, the count tables, the area rule,
  month keys and labels, and the lexical sort of month keys.
- `Views`: the statistics and the map-marker selection.
- `Store`: the class `CrimeManagementSystem` with its state-changing methods,
  and the pure functions that specify them (find, edit, delete by id).
- `Sample`: what the statistics and the charts show for the eight sample records.

Assumptions stated by the model:

- A record's year and month come from the `YYYY-MM` prefix of its `date`. The
  source parses the date with `new Date`, whose result depends on the time zone.
  A date without a valid prefix gets the key of an invalid date, `NaN-NaN`.
- Dictionary keys are listed in insertion order (`Object.keys`). JavaScript
  does this for keys that are not integer-like. The model assumes no type,
  status, area or month label is an integer-like string.
- The counting dictionaries are plain objects, so they inherit the property
  names of `Object.prototype` (`__proto__`, `constructor`, `toString`,
  `hasOwnProperty`, `valueOf` and the others). The model assumes no type,
  status or area label is one of these names.
- Lower-casing affects ASCII letters only. String comparison is by code point,
  written as comparison of `char`s. This equals JavaScript's UTF-16 code-unit
  order for characters of the Basic Multilingual Plane.
- Every record carries every text field as a string. The model has no absent
  or `null` field.
- Record ids are integers. A new record's id (`Date.now()` in the source) is a
  parameter of `HandleFormSubmit`. Ids are unique only when the caller supplies
  fresh ones. The lemmas that need unique ids say so in their `requires`.
- Coordinates are opaque optional values. The source obtains them with
  `parseFloat`, which is left out.
- What `JSON.parse` gives an import is a parameter: an array of records, a
  value that is not an array, or a syntax error.

Where the code behaves differently from what a reader would expect, the model
follows the code:

- A monthly trend chart would be expected in calendar order. The code sorts the
  month keys as strings. Its keys carry a 0-based month that is not padded, so
  `2024-10` (November) sorts before `2024-2` (March).
  `Aggregation.UnpaddedMonthsSortLexically` shows this.
- An area taken from the rest of the address would be expected to be everything
  after the first comma. The code takes only the second comma-separated field,
  trimmed.
- Editing overwrites every form field of the record. It is not a partial patch,
  because the form always supplies all the fields.
- Neither edit nor delete reports whether it found the id.

## Model

| member | source | states |
|---|---|---|
| Strings.Lower | script.js:301 | lower-casing keeps the length, maps each character through `LowerChar`, and leaves no upper-case letter |
| Strings.ContainsIffOccurs | script.js:331-337 | `includes` holds exactly when the needle occurs at some index of the text |
| Strings.Trim | script.js:722-724 | `trim` gives an infix of the input with only white space around it, which neither starts nor ends with white space |
| Strings.Before | script.js:720 | the first field of `split` has no separator, is a prefix of the input, and is followed by the separator or the end |
| Strings.After | script.js:720-722 | the input is the first field, the separator, then the rest |
| Strings.SplitJoined | script.js:685 | splitting `a + sep + b` where `a` has no separator gives back `a` and `b` |
| Strings.NatToStringRoundTrip | script.js:678 | printing a year or month number in decimal and parsing it back gives the number |
| Strings.LexLessTransitive | script.js:353-356 | the string order `<` is transitive |
| Strings.LexTrichotomy | script.js:682 | any two strings compare one way, the other way, or are equal |
| Filtering.Retain | script.js:330-357 | one `filter` step keeps no more records than it had, and only records of the input that pass every test |
| Filtering.RetainStep | script.js:326-357 | filtering an already-filtered list by one more test equals filtering once by all the tests |
| Filtering.RetainNothing | script.js:326 | with no test switched on, the list is the collection unchanged |
| Filtering.MatchesIffActive | script.js:329-357 | the tests the chain applies all hold of a record exactly when every active criterion holds of it (AND of the criteria) |
| Filtering.SelectIsMatchingSubsequence | script.js:325-360 | the filtered list is the subsequence of `crimes`, at increasing indices and in original order, made of exactly the records that match every active criterion |
| Filtering.SelectMembership | script.js:329-357 | a record is in the filtered list exactly when it is in the collection and matches the criteria |
| Filtering.SelectNoCriteria | script.js:321-326 | with empty criteria the filtered list is the whole collection |
| Filtering.StartDayKept | script.js:352-354 | a record dated on the start day, at any time, passes the start bound |
| Filtering.EarlierDayDropped | script.js:352-354 | a record dated on an earlier day, at any time of that day, fails the start bound |
| Filtering.EndDayKept | script.js:355-357 | a record dated on the end day no later than `T23:59:59` passes the end bound |
| Filtering.LaterDayDropped | script.js:355-357 | a record dated on a later day fails the end bound |
| Aggregation.FirstSeenIsDistinctKeys | script.js:661-667 | the dictionary's key order lists distinct labels, exactly the keys that occur |
| Aggregation.CountPositiveIffPresent | script.js:663 | a label's count is positive exactly when the label occurs |
| Aggregation.CountIsMultiplicity | script.js:663 | a label's count is its number of occurrences among the keys |
| Aggregation.SumOfCounts | script.js:666-669 | over distinct labels that cover every key, the counts add up to the number of keys |
| Aggregation.CountTableIsExact | script.js:660-670 | a count table has as many values as labels; labels are distinct and are exactly the keys that occur; each value is its label's count and at least 1; the values sum to the number of records |
| Aggregation.Tally | script.js:661-664 | the `forEach` counting loop yields the labels in first-seen order, and a count for every key that occurs and no other |
| Aggregation.TallyStep | script.js:663 | one turn of the counting loop keeps the key order and every count in step with the keys seen so far |
| Aggregation.FirstSeenOrder | script.js:661-667 | of two labels in the dictionary's key order, the earlier one first occurs among the keys before the later one |
| Aggregation.TallyTable | script.js:666-669 | reading the dictionary out gives the count table of the keys |
| Aggregation.FirstKeyword | script.js:710-717 | the first keyword in priority order that the location contains, and none before it; or none at all |
| Aggregation.SecondField | script.js:720-722 | the second comma-separated field starts just after the first comma and stops at the next comma or the end |
| Aggregation.AreaRule | script.js:708-726 | empty location gives `Unknown Area`; else the first of Downtown, Midtown, Uptown, Online the location contains; else the trimmed second comma field, or the whole trimmed location without a comma |
| Aggregation.YearMonth | script.js:677 | a date has a year and month exactly when it has four digits, a dash and two digits naming a month from 1 to 12; these are the numbers written there |
| Aggregation.MonthLabelOfKey | script.js:684-686 | a key's label is the month's name and the year written in the date, or `undefined NaN` for an invalid date |
| Aggregation.MonthLabelOfJoin | script.js:684-686 | splitting a key `year-month` at the dash labels it with the month's name and the year |
| Aggregation.NotANumberLabel | script.js:684-686 | a key made of two copies of a non-empty text with no dash and no digit, such as `NaN-NaN`, is labelled `undefined` and that text |
| Aggregation.InvalidMonthLabel | script.js:684-687 | the key of an invalid date is labelled `undefined NaN` |
| Aggregation.SortLex | script.js:682 | `sort()` gives a permutation of the keys in ascending string order |
| Aggregation.SortLexDistinct | script.js:682 | sorting distinct keys gives a strictly increasing sequence |
| Aggregation.SortedKeys | script.js:682 | the sorted month keys are strictly increasing and are exactly the keys that occur |
| Aggregation.MonthlyTableIsExact | script.js:672-690 | the monthly table lists each month key once, in increasing string order, with the key's label and its count (at least 1); the counts sum to the number of records |
| Aggregation.MonthlyTrend | script.js:672-690 | the counting loop over the month keys, then sorting the dictionary's keys and reading off each key's label and count, gives the monthly table |
| Aggregation.UnpaddedMonthsSortLexically | script.js:678-682 | November 2024 gets key `2024-10` and March 2024 gets `2024-2`, and the November key sorts first |
| Views.FilterCountIsKeyCount | script.js:779-780 | a status `filter(...).length` equals the number of records whose status is that name |
| Views.Statistics | script.js:777-780 | total is the collection's length; open and solved are the counts of status `Open` and `Solved`; open + solved is at most the total |
| Views.StatisticsAgreeWithStatusTable | script.js:692-702 | the open and solved counters equal the status table's `Open` and `Solved` values, and are zero exactly when the table has no such column |
| Views.TypeFilterAgreesWithTypeTable | script.js:342-344 | filtering by a type keeps as many records as the type table counts for it |
| Views.Markers | script.js:514-515 | a record gets a map marker exactly when it is in the collection and both its coordinates are truthy |
| Store.FindIndex | script.js:280 | `findIndex` gives the first index holding the id, or none exactly when no record has it |
| Store.EditChangesOnlyTheRecord | script.js:278-283 | editing keeps the length and every id and position; the first record with the id takes the new fields and no other record changes; an unknown id changes nothing |
| Store.EditReachesTheId | script.js:280-282 | with unique ids, the record with the edited id carries the new fields afterwards |
| Store.EditKeepsIdsUnique | script.js:282 | editing keeps ids unique |
| Store.AddKeepsIdsUnique | script.js:286-287 | appending a record with a fresh id keeps ids unique |
| Store.WithoutId | script.js:856 | deletion keeps exactly the records whose id differs from the argument |
| Store.WithoutIdConcat | script.js:856 | deletion keeps the surviving records in their order |
| Store.DeleteIdempotent | script.js:856 | deleting the same id twice is deleting it once |
| Store.DeleteRemovesOne | script.js:856 | with unique ids, deleting the id at index `i` removes exactly that record and keeps the rest in order |
| Store.DeleteKeepsIdsUnique | script.js:856 | deleting keeps ids unique |
| Store.CrimeManagementSystem.constructor | script.js:4-34 | the store starts with the parsed saved data whenever something was saved (even an empty array), otherwise the sample records, with no criteria and no record being edited |
| Store.CrimeManagementSystem.OpenModal | script.js:202-203 | opening the form records which id it edits and changes nothing else |
| Store.CrimeManagementSystem.CloseModal | script.js:224-227 | closing the form clears the edited id and changes nothing else |
| Store.CrimeManagementSystem.Add | script.js:286-287 | the collection becomes the old one with the new record appended; nothing else changes |
| Store.CrimeManagementSystem.Edit | script.js:278-283 | the collection becomes the edited collection of the old one |
| Store.CrimeManagementSystem.HandleFormSubmit | script.js:259-297 | with a truthy edited id the record with that id is edited, otherwise a record with the new id is appended; the form is closed |
| Store.CrimeManagementSystem.DeleteCrime | script.js:854-856 | the collection becomes the old one without the records that carry the id |
| Store.CrimeManagementSystem.ImportData | script.js:824-845 | an array replaces the whole collection; no file, a non-array value or a parse error leaves it untouched |
| Store.CrimeManagementSystem.HandleSearch | script.js:300-301 | the search criterion becomes the lower-cased query; nothing else changes |
| Store.CrimeManagementSystem.ApplyFilters | script.js:305-309 | the type, status and date criteria become the four inputs; the search and the records are kept |
| Store.CrimeManagementSystem.ClearFilters | script.js:314-321 | all criteria are cleared; the records are kept |
| Store.CrimeManagementSystem.GetFilteredCrimes | script.js:325-360 | the step-by-step filter chain returns the matching subsequence `Select` of the records |
| Store.CrimeManagementSystem.GetCrimeTypeData | script.js:660-670 | the result is the count table of the records' types |
| Store.CrimeManagementSystem.GetStatusData | script.js:692-702 | the result is the count table of the records' statuses |
| Store.CrimeManagementSystem.GetGeographicData | script.js:704-735 | the result is the count table of the records' derived areas |
| Store.CrimeManagementSystem.GetMonthlyTrendData | script.js:672-690 | the result is the monthly table: month keys in string order, labelled, with their counts |
| Sample.SampleStatistics | script.js:40-162 | the sample records give total 8, open 2, solved 2 |
| Sample.SampleTypeTable | script.js:40-162 | the sample's type table is Theft 2, Assault 2, Burglary 2, Vandalism 1, Fraud 1 |
| Sample.SampleAreaTable | script.js:40-162 | the sample's area table is Downtown 3, Midtown 2, Uptown 2, Online 1 |
| Sample.SampleMonthlyTable | script.js:40-162 | the sample's monthly table is Jan 2024 3, Feb 2024 5 |

## Left out

- DOM reading and writing, HTML templates, modals, tabs and `showMessage` notifications: these are user interface with no logic of their own. `OpenModal` and `CloseModal` keep only the edited id.
- Leaflet map setup and marker objects, and Chart.js construction: these are calls into widget libraries. Only the marker selection (`Views.Markers`) is modelled.
- `localStorage`, `FileReader`, `Blob` export, `JSON.parse` and `JSON.stringify`: these are I/O and library serialisation. The saved data and the parse result of an import are parameters.
- `Date.now()` id generation: the id is a parameter. `new Date` parsing and locale formatting depend on the time zone, so month keys are read from the `YYYY-MM` prefix. `parseFloat` of coordinates is floating point, so coordinates are opaque optional values.
- The `confirm()` dialog in `deleteCrime` blocks on the user. `DeleteCrime` is the action taken after confirmation.
- The recomputation that follows each mutation (`saveData`, `updateStatistics`, `renderCrimeList`, `updateMap`, `updateCharts`) pushes values to those sinks. The model gives the values as functions of the state and leaves the push out.
- Records with a missing or `null` text field: `getFilteredCrimes` throws on `undefined.toLowerCase()` with a search active, and `undefined <= endDate` is false. The type and status tables count such a record under the label `undefined` or `null`, because the dictionary key is the value turned into a string. The model gives every record all its fields as strings, so it has none of these cases.
- Aggregation.Tally: does not model the names inherited from `Object.prototype`. For `__proto__` the source computes a string and the assignment is ignored, so that label is never counted. For `constructor`, `toString` and the other names, the first count is the inherited function turned into a string with `1` appended, not 1. The labels and counts the model states hold only for labels that are not such names.
- Strings.LexLess: compares code points, while JavaScript compares UTF-16 code units. The two orders differ only for characters outside the Basic Multilingual Plane: JavaScript gives `"\u{1F600}" < "\uFF01"` as true, because the first string starts with a surrogate (0xD83D), and `LexLess` gives false.
- Extra fields an imported record may carry, which an edit's object spread keeps: a record here has exactly the form's fields.
- Non-ASCII case mapping in `toLowerCase`, and dates that `new Date` accepts in formats other than `YYYY-MM...`.
- Aggregation.MonthKey: does not model dates with a valid `YYYY-MM` prefix that `new Date` still rejects (day 32, hour 25, trailing text). The source gives those the key `NaN-NaN`, and the model gives them their year-month key. It also does not model the shift to local time: a date-only string is read as UTC midnight, so west of UTC it can fall in the previous month.
