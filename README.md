# Physical file locator: verified model of the front end's logic

The application tracks paper files stored in cabins. Each cabin sits in a
cluster named by one letter (C for Colombo, K for Kandy, and so on), at a
row and a column. This project models the logic of the React front end in Dafny:

- the files hook: the local cache of the server's records and its load,
  delete, update and create operations;
- the tracker: search by File ID or by location token such as `C89`;
- the analytics page: distributions, grid size, efficiency and the five
  busiest locations;
- the dashboard notifications and their capacity warning above 80 percent;
- the storage grid: filter by cluster, then bucket records into
  `row-column` cells;
- the two record-entry forms, the "Add File Record" dialog and the
  "Add New File" modal, with their different validations;
- the statistics cards;
- the search bar's filter state.

Each remote call (fetch, axios) is a parameter that says how the call
ended. State that a component changes step by step is a Dafny `class`,
with methods whose postconditions give the whole new state. The rest is
functions, with lemmas that state what they promise.

Modules, one per source file plus shared helpers:

- `Maybe`: an option type.
- `Text`: JavaScript's `trim`, case mapping, `String(n)`, `Number(s)` and
  `parseInt(s)` on the strings the forms hold.
- `Tally`: the "count into an object, then sort by count" idiom, with
  keys in insertion order and a stable sort.
- `FileRecords`, `FileStore`, `Tracker`, `Capacity`, `Analytics`,
  `StorageGrid`, `Uploader`, `UploadModal`, `Notifications`, `FileStats`
  and `FileSearch`.

## Model

| member | source | states |
|---|---|---|
| Text.Trim | src/components/FileUploader.jsx:33 | the trimmed string is empty or begins and ends with a non-whitespace character |
| Text.TrimBetweenSpaces | src/components/FileUploader.jsx:50 | what `trim` keeps is the slice between a whitespace-only prefix and a whitespace-only suffix |
| Text.TrimEmptyIffAllSpace | src/components/FileUploadModal.jsx:34 | a field is blank after `trim` exactly when it holds only whitespace |
| Text.TrimIdempotent | src/components/FileUploader.jsx:50 | trimming a trimmed string changes nothing |
| Text.TrimKeepsCore | src/components/FileTracker.jsx:31 | `trim` removes exactly the whitespace before the first and after the last non-whitespace character |
| Text.TrimCommutesWithLower | src/components/FileTracker.jsx:31 | `s.trim().toLowerCase()` equals `s.toLowerCase().trim()` |
| Text.TrimCommutesWithUpper | src/components/FileTracker.jsx:31 | `s.toUpperCase().trim()` equals `s.trim().toUpperCase()` |
| Text.LowerOfUpper | src/components/FileTracker.jsx:38 | lower-casing forgets an earlier upper-casing |
| Text.LowerConcat | src/components/FileTracker.jsx:38 | lower-casing distributes over concatenation |
| Text.LowerInjective | src/components/FileTracker.jsx:38-39 | on text without lower-case letters, equal lower-cased forms mean equal texts |
| Text.NatToString | src/components/Analytics.jsx:34 | `String(n)` is a non-empty run of digits, one digit exactly when n < 10 |
| Text.NatToStringRoundTrip | src/components/StorageGrid.jsx:22 | reading back the numeral of n gives n |
| Text.NumberOfNumeral | src/components/FileUploader.jsx:36 | `Number(String(i))` is `i` |
| Text.ParseIntAgreesWithNumber | src/components/FileUploadModal.jsx:44 | where `Number(s)` reads n from a non-blank field, `parseInt(s)` reads n too |
| Text.DigitPrefix | src/components/FileUploadModal.jsx:73 | the decimal run `parseInt` reads when there is no `0x` prefix is all digits and stops at the first non-digit |
| Text.DigitPrefixIsLongest | src/components/FileUploadModal.jsx:73 | a digit run ending at a non-digit or at the end is exactly the decimal run `parseInt` reads |
| Text.HexPrefix | src/components/FileUploadModal.jsx:73 | after a `0x` or `0X` prefix, the run `parseInt` reads is all hexadecimal digits and stops at the first other character |
| Text.HexPrefixIsLongest | src/components/FileUploadModal.jsx:73 | a hexadecimal run ending at another character or at the end is exactly the run `parseInt` reads after `0x` |
| Text.ParseIntReadsHex | src/components/FileUploadModal.jsx:73 | `parseInt` reads "0x1A" as 26 and " -0X10" as -16, and a `0x` prefix without a hexadecimal digit after it as `NaN` |
| Tally.TallyOf | src/components/Analytics.jsx:10-13 | the counter holds each distinct value once, with its number of occurrences |
| Tally.TallySum | src/components/Analytics.jsx:10-13 | the counts add up to the length of the list |
| Tally.TallySize | src/components/Analytics.jsx:29 | the counter has one key per distinct value |
| Tally.TallyFirstOccurrenceOrder | src/components/Analytics.jsx:33-39 | the counter's keys come in the order of their first occurrence, which is how JavaScript lists keys that are not array indices |
| Tally.CardinalityBound | src/components/FileStats.jsx:13-15 | a list has no more distinct values than elements, and none exactly when it is empty |
| Tally.DistinctCardinality | src/components/Analytics.jsx:51 | a list without repeats has as many distinct values as elements |
| Tally.SortDesc | src/components/Analytics.jsx:40 | the sort by count is a permutation, is non-increasing and keeps the keys |
| Tally.SortDescKeepsTieOrder | src/components/Analytics.jsx:40 | the sort is stable: equal counts keep their input order |
| Tally.Top | src/components/Analytics.jsx:41 | `slice(0, n)` keeps min(n, length) entries |
| Tally.TopDominates | src/components/Analytics.jsx:39-41 | every entry left out has a count no larger than every entry kept |
| Tally.TopShape | src/components/Analytics.jsx:39-41 | the kept entries are sorted by count and have distinct keys |
| Tally.TopCountsExact | src/components/Analytics.jsx:33-41 | each kept entry's count is its key's number of occurrences, and is positive |
| Tally.TopTiesInFirstSeenOrder | src/components/Analytics.jsx:33-41 | among the kept entries, keys with equal counts come in the order of their first occurrence in the list, for keys that are not array indices |
| FileRecords.Transform | src/hooks/useFiles.js:23-35 | a loaded record keeps the server's id, File ID, cluster, row, column and address, and gets name "File <fileId>", size "Unknown", type "file", today's date and the cabin location "Cluster: <cluster>, Row: <row>, Column: <column>" |
| FileRecords.TransformLossless | src/hooks/useFiles.js:23-35 | the server record can be read back from the transformed one |
| FileRecords.NameCarriesFileId | src/hooks/useFiles.js:26 | the display name carries the File ID after "File " |
| FileRecords.TokenShape | src/components/Analytics.jsx:34 | with a one-letter cluster and coordinates 0-9 the location token is letter, row digit, column digit |
| FileRecords.TokenInjective | src/components/Analytics.jsx:34 | within that domain distinct cabins have distinct tokens |
| FileRecords.TokenNotArrayIndex | src/components/Analytics.jsx:34 | a token of one of the ten clusters starts with a letter, so it is not an array-index key |
| FileRecords.TokenAmbiguousBeyondOneDigit | src/components/Analytics.jsx:34 | beyond one digit two cabins share a token (row 1 col 23 and row 12 col 3 of C) |
| FileStore.FailureMessage | src/hooks/useFiles.js:16-17 | a response that is not ok leaves "HTTP error! status: N"; a thrown error leaves its own message |
| FileStore.TransformedLossless | src/hooks/useFiles.js:23-37 | a load loses no server record and no server field |
| FileStore.WithoutId | src/hooks/useFiles.js:63 | delete keeps exactly the records with another id, and drops as many as carry that id |
| FileStore.WithoutIdConcat | src/hooks/useFiles.js:63 | the filter distributes over concatenation, so the kept records keep their order |
| FileStore.WithoutIdAbsent | src/hooks/useFiles.js:63 | deleting an id no record has changes nothing |
| FileStore.WithoutIdIdempotent | src/hooks/useFiles.js:63 | deleting the same id twice is deleting it once |
| FileStore.Merge | src/hooks/useFiles.js:88 | `{ ...file, ...updates }`: each key in the patch overrides, every other key is kept |
| FileStore.MergeLaws | src/hooks/useFiles.js:88 | an empty patch changes nothing, two merges are one merge of the combined patch, and a merge repeated changes nothing |
| FileStore.Patched | src/hooks/useFiles.js:87-89 | update merges the patch into exactly the records with that id, in place |
| FileStore.PatchedOnlyTargets | src/hooks/useFiles.js:87-89 | records with other ids are untouched; with no matching record the list is unchanged |
| FileStore.PatchedIdempotent | src/hooks/useFiles.js:87-89 | applying the same update twice equals applying it once |
| FileStore.FilesHook.constructor | src/hooks/useFiles.js:6-9 | no records, loading, no error, not refreshing |
| FileStore.FilesHook.FetchFiles | src/hooks/useFiles.js:11-44 | success replaces the list by the transformed records and clears the error; failure keeps the list and records the message; loading ends false either way |
| FileStore.FilesHook.RefreshFiles | src/hooks/useFiles.js:46-50 | a load, with refreshing false afterwards |
| FileStore.FilesHook.DeleteFile | src/hooks/useFiles.js:52-70 | returns whether the call succeeded; only on success are that id's records removed; on failure the error is recorded |
| FileStore.FilesHook.UpdateFile | src/hooks/useFiles.js:72-96 | returns whether the call succeeded; only on success is the patch merged into that id's records |
| FileStore.FilesHook.CreateFile | src/hooks/useFiles.js:98-120 | nothing is inserted locally; success reloads the list from the server; failure records the message and keeps the list |
| Tracker.FindFirst | src/components/FileTracker.jsx:33-40 | `find` returns the first entry that matches and skips `null` entries; there is none exactly when no entry matches |
| Tracker.FileTracker.constructor | src/components/FileTracker.jsx:6-10 | empty query, File ID mode, not searching, no result, no error |
| Tracker.FileTracker.Settle | src/components/FileTracker.jsx:27-54 | fetch failure clears the result with the fetch-failed message; no match clears it with the mode's not-found message; a match is shown and the error cleared |
| Tracker.FileTracker.HandleSearch | src/components/FileTracker.jsx:15-56 | a blank query only sets "Please enter a search query"; otherwise the search settles as above and `isSearching` ends false |
| Tracker.NormalizeIgnoresCase | src/components/FileTracker.jsx:31 | queries differing only in case normalise alike |
| Tracker.NormalizeIgnoresSurroundingSpace | src/components/FileTracker.jsx:31 | surrounding whitespace does not change the normalised query |
| Tracker.OwnFileIdMatches | src/components/FileTracker.jsx:35-36 | a record is found by its own File ID, in any case |
| Tracker.LocationKeyIsLoweredToken | src/components/FileTracker.jsx:38 | the location compared is the lower-cased token cluster, row, column |
| Tracker.LocationSearchExample | src/components/FileTracker.jsx:38-39 | "C89" finds the cabin at row 8, column 9 and not the one at row 9, column 8 |
| Tracker.LocationSearchIdentifiesCabin | src/components/FileTracker.jsx:38-39 | for valid cabins, two records matched by one location query share cluster, row and column |
| Capacity.MaxOf | src/components/Analytics.jsx:27-28 | `Math.max` of a non-empty list is an element and bounds every element |
| Capacity.ClusterKeyCountDistinct | src/components/Analytics.jsx:29 | the cluster counter has as many keys as there are distinct clusters |
| Capacity.RoundedPercent | src/components/Analytics.jsx:30 | `Math.round(n / slots * 100)`: p is the integer with 2·slots·p ≤ 200n + slots < 2·slots·(p+1) |
| Capacity.RoundedPercentNearest | src/components/Analytics.jsx:30 | the rounded figure is within half a percent of 100n/slots |
| Capacity.Efficiency | src/components/Analytics.jsx:30 | 0 without slots, otherwise the rounded percentage |
| Capacity.OverCapacityMeansOver80 | src/components/DashboardNotification.jsx:54-57 | the integer test 5n > 4·slots is `capacityUsed > 80` |
| Capacity.GridCoversRecords | src/components/Analytics.jsx:27-28 | every record's row and column lie below max + 1 |
| Capacity.ClusterKeyCountPositive | src/components/Analytics.jsx:29 | a non-empty list has at least one cluster |
| Capacity.SlotsPositive | src/components/Analytics.jsx:29 | with non-negative coordinates there is at least one slot |
| Analytics.DistributionsExact | src/components/Analytics.jsx:10-24 | each distribution counts each distinct value's records exactly, and the counts sum to the number of records |
| Analytics.UniqueClustersDistinct | src/components/Analytics.jsx:51 | `uniqueClusters` is the number of distinct clusters |
| Analytics.ReportedGridCoversRecords | src/components/Analytics.jsx:52-53 | the reported grid size exceeds every record's row and column |
| Analytics.EfficiencyNotCapped | src/components/Analytics.jsx:30 | efficiency can exceed 100: two records in a one-slot grid give 200 |
| Analytics.TopLocationsShape | src/components/Analytics.jsx:39-42 | at most five locations (fewer when fewer exist), distinct, by non-increasing count, each with its exact count |
| Analytics.LocationsAsSet | src/components/Analytics.jsx:33-37 | the locations counted are exactly the records' tokens |
| Analytics.TopLocationsAreTop | src/components/Analytics.jsx:39-41 | a location left out occurs no more often than any location kept |
| Analytics.TopLocationsTiesInFirstSeenOrder | src/components/Analytics.jsx:39-41 | when no token is an array index, locations with equal counts appear in first-seen order |
| Analytics.ListedClustersTiesInFirstSeenOrder | src/components/Analytics.jsx:39-41 | when every record is in one of the ten clusters, locations with equal counts appear in first-seen order |
| Analytics.NoDataOnlyBeforeFirstRecords | src/components/Analytics.jsx:75 | an empty list keeps the "No data" view as it was; after records it never shows |
| StorageGrid.Filtered | src/components/StorageGrid.jsx:11-13 | a selected cluster keeps exactly its records; no selection, or an empty one, keeps all; an empty list stays empty |
| StorageGrid.FilteredSingleton | src/components/StorageGrid.jsx:11-13 | a single record is kept exactly when it is in the selected cluster or nothing is selected |
| StorageGrid.FilteredConcat | src/components/StorageGrid.jsx:11-13 | the filter distributes over concatenation, so kept records keep their order and multiplicity |
| StorageGrid.InCellMembers | src/components/StorageGrid.jsx:21-27 | a cell holds exactly the records with its key |
| StorageGrid.InCellCount | src/components/StorageGrid.jsx:21-27 | a cell's size is the number of records with its key |
| StorageGrid.PushKeepsBuckets | src/components/StorageGrid.jsx:23-26 | pushing one record into its cell keeps the grid a bucketing of the records seen |
| StorageGrid.Place | src/components/StorageGrid.jsx:23-26 | one step of the `forEach`: after pushing a record into its cell the grid buckets the records seen so far plus that one |
| StorageGrid.BucketKeys | src/components/StorageGrid.jsx:20-27 | the grid's keys are exactly the keys of the records |
| StorageGrid.Bucket | src/components/StorageGrid.jsx:20-27 | the `forEach` builds a grid whose cells hold exactly the records of their key, in list order |
| StorageGrid.BucketsPartition | src/components/StorageGrid.jsx:20-27 | each record lies in its own cell and in no other; the cells are the records' keys |
| StorageGrid.BucketsCounts | src/components/StorageGrid.jsx:20-27 | cell sizes match the key counts and add up to the number of records |
| StorageGrid.CellKeyInjective | src/components/StorageGrid.jsx:22 | with non-negative coordinates different cells have different keys |
| StorageGrid.GridDim | src/components/StorageGrid.jsx:16-17 | max + 1 bounds every coordinate; it is `-Infinity` exactly for an empty list |
| StorageGrid.Drawn | src/components/StorageGrid.jsx:105-120 | `Array.from({ length })` draws d lines for positive d and none otherwise |
| StorageGrid.Markers | src/components/StorageGrid.jsx:141-152 | a cell draws dots for its first three records and an overflow marker when it holds more than three |
| StorageGrid.OverflowMeansUndrawn | src/components/StorageGrid.jsx:141-152 | the overflow marker shows exactly when some record has no dot; at most four markers |
| StorageGrid.StorageGridView.constructor | src/components/StorageGrid.jsx:5 | nothing computed yet |
| StorageGrid.StorageGridView.Refresh | src/components/StorageGrid.jsx:8-36 | with records the published grid buckets the filtered records, with their dimensions and count; with none the state is kept |
| StorageGrid.EmptyClusterSkipsNoFilesMessage | src/components/StorageGrid.jsx:70 | as written, in the state `Refresh` publishes for a selected cluster with no records, "No files found" is skipped because the dimensions are `-Infinity`, which is truthy, and no row, column or file is drawn |
| StorageGrid.IntendedMessageAndCoverage | src/components/StorageGrid.jsx:70-79 | with the intended test the message shows exactly when the filtered list is empty, and every record is drawn in its own cell |
| Uploader.PayloadFields | src/components/FileUploader.jsx:49-55 | the request carries the trimmed File ID, the cluster, `Number` of row and column, and the trimmed address or `null` exactly when it is blank |
| Uploader.FailureText | src/components/FileUploader.jsx:63 | the server's message when non-empty, otherwise "Failed to save."; never empty |
| Uploader.FileUploader.constructor | src/components/FileUploader.jsx:8-15 | all fields and messages empty, not submitting |
| Uploader.FileUploader.ClearMessages | src/components/FileUploader.jsx:41-42 | both messages cleared |
| Uploader.FileUploader.ClearFields | src/components/FileUploader.jsx:57-61 | all five fields emptied, which fails validation |
| Uploader.FileUploader.HandleSave | src/components/FileUploader.jsx:40-67 | an invalid form gets the validation message and sends nothing; a valid one sends its payload, and then shows success and resets, or shows the failure text and keeps the fields; `submitting` ends false |
| Uploader.NumeralAccepted | src/components/FileUploader.jsx:36-37 | an integer coordinate is accepted exactly when it is 0-9 |
| Uploader.ValidPayloadIsLocatable | src/components/FileUploader.jsx:32-55 | when the row and column are each blank or an optionally signed digit run, whatever passes is sent with a listed cluster, coordinates 0-9, a three-character token, and a non-blank trimmed File ID |
| Uploader.EmptyFormInvalid | src/components/FileUploader.jsx:32-38 | the empty form does not pass |
| Uploader.EmptyCoordinateRejected | src/components/FileUploader.jsx:35-36 | `Number('')` is 0 and would pass the range test; the `!== ''` test rejects an empty row or column |
| UploadModal.Form.With | src/components/FileUploadModal.jsx:17-20 | `{ ...prev, [name]: value }` sets the named field and keeps the others |
| UploadModal.FieldErrorNonEmpty | src/components/FileUploadModal.jsx:34-56 | every recorded error message is non-empty |
| UploadModal.FlagsRecordExactly | src/components/FileUploadModal.jsx:32-56 | five guarded `newErrors.<field> = …` assignments leave exactly the fields whose check failed, each with its own message |
| UploadModal.FlaggedErrorsExact | src/components/FileUploadModal.jsx:31-56 | the object `validateForm` builds holds a field iff that field has an error, and then holds that field's message |
| UploadModal.FileUploadModal.constructor | src/components/FileUploadModal.jsx:5-13 | empty form, no errors, not loading |
| UploadModal.FileUploadModal.HandleInputChange | src/components/FileUploadModal.jsx:15-29 | sets the field; a non-empty error on that field is blanked and the other errors kept |
| UploadModal.FileUploadModal.ValidateForm | src/components/FileUploadModal.jsx:31-60 | the error map holds exactly the failing fields with their messages; valid iff the map is empty iff the form passes |
| UploadModal.FileUploadModal.Finish | src/components/FileUploadModal.jsx:77-91 | after `onSubmit` resolves the form and errors are reset and the modal closes; after it throws they are kept; loading ends false |
| UploadModal.FileUploadModal.HandleSubmit | src/components/FileUploadModal.jsx:62-92 | a failing form publishes its errors and submits nothing; a passing one submits the form with `parseInt` row and column and finishes as above |
| UploadModal.FileUploadModal.HandleClose | src/components/FileUploadModal.jsx:94-106 | ignored while loading; otherwise resets the form and the errors and closes |
| UploadModal.ModalValidIff | src/components/FileUploadModal.jsx:31-60 | the form passes iff File ID, cluster and address are not blank and row and column pass their check |
| UploadModal.DigitRangePassesCoordinateCheck | src/components/FileUploadModal.jsx:42-52 | a coordinate the dialog accepts passes the modal's check |
| UploadModal.ClusterCodeNotBlank | src/components/FileUploadModal.jsx:38 | each cluster code is non-blank and trims to itself |
| UploadModal.UploaderAcceptedModalAccepts | src/components/FileUploadModal.jsx:31-60 | every entry the dialog accepts, given an address, the modal accepts too |
| UploadModal.SubmittedCoordinatesAreTyped | src/components/FileUploadModal.jsx:71-75 | in a passing form, a row or column that is an optionally signed digit run reaches `onSubmit` as the number typed, never negative |
| UploadModal.ModalHasNoUpperBound | src/components/FileUploadModal.jsx:42-52 | a row or column of 10 or more passes the modal, while the dialog rejects it |
| UploadModal.BlankAddressRejectedByModal | src/components/FileUploadModal.jsx:54-56 | a blank address is an error in the modal, so the form fails |
| Notifications.BuildNotifications | src/components/DashboardNotification.jsx:8-82 | the pushes build exactly the list the five conditions give |
| Notifications.NotificationsMembers | src/components/DashboardNotification.jsx:12-79 | each kind is present exactly under its own condition, with the loaded count, the rounded capacity figure, or min(3, n) |
| Notifications.NotificationsOrdered | src/components/DashboardNotification.jsx:9-81 | loading, error, online, capacity, activity: strictly in that order, so each at most once |
| Notifications.NotificationPanel.constructor | src/components/DashboardNotification.jsx:5-6 | no notifications, shown |
| Notifications.NotificationPanel.Refresh | src/components/DashboardNotification.jsx:8-82 | the list is rebuilt and the dismiss flag is untouched |
| Notifications.NotificationPanel.Dismiss | src/components/DashboardNotification.jsx:133 | hides the panel and keeps the list |
| Notifications.EmptyExactlyWhenIdle | src/components/DashboardNotification.jsx:114-116 | the list is empty, and nothing renders, exactly with no records, no loading and no error |
| Notifications.OnlineExcludesTrouble | src/components/DashboardNotification.jsx:34 | "System Online" never appears with the loading or the error notification |
| Notifications.WarningMeansOver80 | src/components/DashboardNotification.jsx:45-65 | without slots there is no warning; a warning means use above 80 percent and shows at least 80 |
| Notifications.RoundedPercentAtLeast80 | src/components/DashboardNotification.jsx:57-60 | a use above 80 percent rounds to at least 80 |
| FileStats.StatsCountDistinct | src/components/FileStats.jsx:11-15 | total is the number of records; the other cards count distinct clusters, rows and columns |
| FileStats.StatsBounds | src/components/FileStats.jsx:12-15 | each distinct count is at most the total and is 0 exactly when there are no records |
| FileStats.ClustersAgreeWithAnalytics | src/components/FileStats.jsx:13 | the clusters card equals the analytics page's unique-cluster count |
| FileStats.DistinctWithinGrid | src/components/FileStats.jsx:14-15 | with non-negative coordinates, distinct rows and columns fit in the analytics grid size |
| FileStats.DistinctAtMostMaxPlusOne | src/components/FileStats.jsx:14-15 | non-negative values have at most max + 1 distinct values |
| FileStats.DistinctRowsAreNotGridHeight | src/components/FileStats.jsx:14 | the rows card counts distinct rows, not max + 1: rows 0 and r ≥ 2 give 2, while the grid is r + 1 high |
| FileSearch.FileSearchBar.constructor | src/components/FileSearch.jsx:5-12 | empty term, filters hidden, four empty filters, none active |
| FileSearch.FileSearchBar.HandleSearch | src/components/FileSearch.jsx:14-17 | stores the term and forwards the same term |
| FileSearch.FileSearchBar.ClearSearch | src/components/FileSearch.jsx:52 | the clear button stores and forwards the empty term |
| FileSearch.FileSearchBar.ToggleFilters | src/components/FileSearch.jsx:62 | flips the filter panel |
| FileSearch.FileSearchBar.HandleFilterChange | src/components/FileSearch.jsx:19-23 | sets one key, keeps the other three, forwards the whole new object; active iff the new value or another key is non-empty |
| FileSearch.FileSearchBar.ClearFilters | src/components/FileSearch.jsx:25-33 | resets all four keys to empty, so nothing is active, but forwards an object with no keys |
| FileSearch.NothingActiveWhenEmpty | src/components/FileSearch.jsx:35 | cleared filters hold every key and are inactive, and so is `{}` |
| FileSearch.ActiveAfterChange | src/components/FileSearch.jsx:35 | after a change the filters are active exactly when the new value or another key is non-empty |
| FileSearch.ClearedForwardingDiffersFromState | src/components/FileSearch.jsx:26-32 | the object forwarded on clearing differs from the one kept, yet both mean "no filter" |

## Left out

- Network calls, URLs and environment configuration are not modelled.
  Each remote call is an outcome parameter (`Response`, `SaveOutcome`,
  `SubmitOutcome`).
- React scheduling, effect re-runs and overlapping asynchronous calls
  are not modelled. Each handler runs to completion as one step.
- The interleaving of state updates with awaited calls (for example
  `refreshing` and `isSearching` while a request is pending) is
  collapsed. Only the state after the handler finishes is stated.
- Dates are not modelled. `modifiedDate` is a parameter `today`, and the
  `recentFiles` week window of the statistics cards is omitted.
- Floating-point display maths is not modelled: percentages of bars and
  pie arcs. Only the integer `Math.round` figures that are published or
  compared are modelled, and they are computed exactly.
- Display lookups are not modelled: cluster names and colours, icons,
  JSX and styles.
- Text.JsNumber: covers only the forms a field realistically holds:
  blank, and an optionally signed run of digits. Fractions such as
  "1.5", exponents, hexadecimal ("0x1A") and "Infinity" read as `NaN` here,
  whereas JavaScript reads them as numbers. So the model rejects "1.5"
  as a row, which the dialog's `Number` test accepts.
- Uploader.ValidPayloadIsLocatable: holds only for a row and column that
  are blank or an optionally signed digit run. The dialog's `Number` test
  also accepts "1.5". It then posts `row: 1.5`, and with column 2 the
  location token is "C1.52", not three characters, although its own
  message reads
  "Row/Column must be 0-9".
- UploadModal.SubmittedCoordinatesAreTyped: holds only for a row and column
  that are an optionally signed digit run. A fraction such as "1.5" or an
  exponent such as "1e1" also passes `validateForm`, because `isNaN` is
  false and `parseInt` is not negative. It then reaches `onSubmit` as
  `parseInt`'s reading, 1, not as the number typed (1.5 or 10).
- Text.ToUpper / Text.ToLower: only ASCII letters change case. JavaScript
  maps all of Unicode.
- Browsers sanitise `type="number"` inputs before the handlers see them.
  The model takes the field strings as given.
- Row and column are modelled as integers. Records whose coordinates are
  missing or non-numeric, where `f.row || 0` matters, are not.
- Key order of the counters: a JavaScript object lists keys that are
  array indices ("0", "12", but not "012" or "C12") first, in ascending
  numeric order, and all other keys in insertion order. The model keeps
  every counter in insertion order. This matches JavaScript for the
  cluster codes and their location tokens. It does not match for the row
  and column distributions, nor for a cluster name made of digits. Only
  counts are stated about the row and column distributions.
- Tally.TallyFirstOccurrenceOrder: holds for JavaScript's counter only when
  no key is an array index, because the lemma is generic over the key type.
- Tally.TopTiesInFirstSeenOrder: holds for JavaScript's counter only when no
  key is an array index, for the same reason. With such keys, JavaScript may
  also keep a different set of entries among equal counts at the cut-off.
- Analytics.TopLocationsTiesInFirstSeenOrder: requires that no token is an
  array index. The server may return any cluster, and the "Add New File"
  modal accepts any non-blank one, so a cluster "5" gives tokens such as
  "512", which JavaScript lists ahead of the others in numeric order.
  Analytics.ListedClustersTiesInFirstSeenOrder discharges this requirement
  for the listed cluster codes.
- FileStore.Merge: a patch can only set the record's own keys. Extra keys
  that `{ ...file, ...updates }` would add are not modelled.
- Bulk delete, a token decoder and a "not found" error on update have no
  code in the files hook, so they are not modelled. Update with an
  unknown id succeeds and changes nothing (FileStore.PatchedOnlyTargets).
- The "Add New File" modal is modelled from its own code. No page in
  the repository opens it.
- The dashboard's "Recent Activity" figure is min(3, n) records, as
  coded. Recency is not modelled.

## Findings

| source | as written | input that shows it | evidently intended | confidence | as-written member | corrected member |
|---|---|---|---|---|---|---|
| src/components/StorageGrid.jsx:70 | the "No files found for this cluster" view tests `!maxRow \|\| !maxColumn`. For a selected cluster with no records, `Math.max()` at lines 16-17 is `-Infinity`, so `maxRow` is `-Infinity + 1 = -Infinity`, which is truthy. The empty grid (no rows, no columns) is drawn instead of the message. | records that are all in cluster C, with cluster K selected | the message appears exactly when the selected cluster has no records | not executed | StorageGrid.EmptyClusterSkipsNoFilesMessage | StorageGrid.IntendedMessageAndCoverage |
