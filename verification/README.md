# imss storage dashboard — a Dafny model of its core

The system is a file-storage dashboard. An Express backend accepts uploads,
classifies each file by MIME type and lists, searches, sorts and pages the
files. It soft-deletes file records and keeps an activity log. It computes
storage statistics, breakdowns, distributions, trends and performance
figures. It serves signup and login over a JSON user list. A browser client
(`script.js`) validates files before upload, drives the gallery's paging and
renders the dashboard.

Every backend endpoint has two modes. With a database, it works on the
MongoDB collections. Without one, it works on the upload directory. This
model keeps both modes. The database becomes a `bool` (or a connection
probe), the directory becomes a sequence of `(name, size, mtime)` entries,
and the collections become sequences of immutable records.

Modules follow the source files:

- `Constants`: the 40-row MIME table, the category set and the upload size
  bound (`backend/src/config/constants.js`).
- `FileHelper`: classification, size check and storage statistics
  (`backend/src/utils/fileHelper.js`).
- `AnalyticsHelper`: metrics, processing averages, efficiency, the analytics
  record, trends and distribution (`backend/src/utils/analyticsHelper.js`).
- `AnalyticsController`: the dashboard, breakdown, distribution,
  performance, snapshot and trend endpoints in both modes
  (`backend/src/controllers/analyticsController.js`).
- `FileModel` and `ActivityModel`: the two Mongoose schemas as validity
  predicates, defaults and unique keys.
- `FileController`: upload, listing, delete and lookup by id.
- `ActivityController`: the feed, clearing and per-type counts.
- `ErrorHandler`: the error middleware.
- `AuthController`: signup, login and profile.
- `Client`: the browser-side logic of `script.js`.
- Shared helpers: `Common` (options, results, paging, rounding), `Strings`
  (ASCII lower-casing, split/join, substring search, and the UTF-16 code
  units in which JavaScript measures and cuts strings), `Sorting` (a stable
  insertion sort under a given total preorder) and `UploadDir` (directory
  entries and the MIME-by-name lookup).

The environment is passed in as parameters:

- the MIME-by-filename lookup of the `mime-types` library, as a function
  `string -> Option<string>`;
- the clock, `Math.random`, and the UUID and id sources, as oracles;
- `localeCompare`, as a given total preorder on names;
- MongoDB's `$regex` search, as an abstract match predicate;
- bcrypt hashing and comparison, JWT signing and the ISO clock, as the
  fields of `AuthEnv`;
- whether an operation on the disk or the store succeeds, as a `bool` or
  a per-file oracle where the model follows the failure: the unlink of a
  directory-mode delete, the move of each uploaded file, the write of the
  users file, the activity feed's query, the read and save of an
  analytics snapshot, and the read of the snapshots behind the trend. The
  other store failures are listed under "Left out".

Integers are unbounded. Sizes and counts are `nat`. `Math.round(100·a/b)`
with `b > 0` is taken over the rationals, as the integer `(200a + b) / (2b)`.
This is the exact rounding the expression intends; the source computes it
in doubles, which can differ at half-way shares (see "Left out").
Database-mode percentages, which the source leaves unrounded, are `real`,
so their sums are exact where the doubles are not. `Math.floor` with a positive
divisor is Dafny's Euclidean `/`, which agrees with it for negative
dividends as well.

A `string` is a sequence of Unicode scalar values, while a JavaScript
string is a sequence of UTF-16 code units. Where a length or a cut depends
on the difference (the password length check and `truncate`), the model
works on `Strings.Utf16` of the text, in which a character above U+FFFF is
two units.

Where the comments and the code disagree, the model follows the code:

- `MAX_FILE_SIZE` is 536870912, which is 512 MiB, not the 500 MB its comment
  and the client state. The client bound stays 500 MiB, so a file between
  the two passes the server's check but is refused by the browser
  (`Client.BoundsDisagree`).
- The client MIME table has 39 of the server's 40 types and lacks
  `video/mpeg` (`Client.MpegOnlyOnServer`).
- The storage breakdown's fallback MIME type is misspelled
  (`application/o\`ctet-stream`). Both spellings classify as unknown, so the
  breakdown is unaffected (`UploadDir.FallbackIrrelevant`).
- The dashboard total on the client adds six categories and leaves out
  `code` (`Client.DashboardTotalOmitsCode`).

## Model

| member | source | states |
|---|---|---|
| Constants.MimeTableShape | backend/src/config/constants.js:1-42 | the table has exactly 40 rows and every row's category is one of the seven known categories |
| Constants.MimeKeysDistinct | backend/src/config/constants.js:1-42 | no MIME type appears in two rows, so the lookup by type is a function |
| Constants.RowsFindKeys | backend/src/config/constants.js:1-42 | looking up the MIME type of row i finds row i, for every row |
| Constants.Lookup | backend/src/utils/fileHelper.js:15 | an exact-string lookup: a hit carries the queried type and is a table row, and a miss means no row has that type |
| Constants.ExtensionsNotUnique | backend/src/config/constants.js:13-34 | `xml` is the extension of two different MIME types and so is `ogg`, so extension-to-MIME is not a function |
| Constants.MaxFileSizeIs512MiB | backend/src/config/constants.js:44 | the default upload bound is 512·1024·1024 bytes |
| Constants.CategoryNameInjective | backend/src/config/constants.js:47-55 | distinct categories have distinct names |
| FileHelper.GetFileCategory | backend/src/utils/fileHelper.js:14-16 | the category of the row with that MIME type, and `unknown` exactly when no row has it |
| FileHelper.GetFileExtension | backend/src/utils/fileHelper.js:18-20 | the extension of the row with that MIME type, and `bin` when no row has it |
| FileHelper.ClassificationIsExact | backend/src/utils/fileHelper.js:14-16 | no case folding and no parameter stripping: `IMAGE/PNG` and `image/png; charset=binary` are unknown |
| FileHelper.ValidateFileSize | backend/src/utils/fileHelper.js:31-33 | a size passes exactly when it is at most the bound |
| FileHelper.DefaultBoundEdge | backend/src/utils/fileHelper.js:31-33 | the bound itself passes, one byte more fails, and 500 MiB plus one byte still passes the default bound |
| FileHelper.CountTally | backend/src/utils/fileHelper.js:57-66 | each known category's count is the number of files of that category |
| FileHelper.SizeTally | backend/src/utils/fileHelper.js:57-66 | each known category's size is the total size of the files of that category |
| FileHelper.CountTallySum | backend/src/utils/fileHelper.js:46-66 | the seven counts sum to the number of known-category files, at most the number of files |
| FileHelper.SizeTallySum | backend/src/utils/fileHelper.js:46-66 | the seven sizes sum to the size of the known-category files, at most the total size |
| FileHelper.KnownCount | backend/src/utils/fileHelper.js:46-66 | at most the number of files, and equal to it when every file has a known category |
| FileHelper.KnownSize | backend/src/utils/fileHelper.js:46-66 | at most the total size, and equal to it when every file has a known category |
| FileHelper.AddFileStep | backend/src/utils/fileHelper.js:57-66 | one iteration of the loop body turns the statistics of a prefix into those of the prefix extended by one file |
| FileHelper.CalculateStorageStats | backend/src/utils/fileHelper.js:35-69 | totals over all files, unknown ones included; per-category counts and sizes; and the flat fields equal to the counts |
| AnalyticsHelper.FilterCategoryMeasures | backend/src/utils/analyticsHelper.js:8-17 | the files kept by a category filter are as many, and as large, as that category's count and size |
| AnalyticsHelper.CalculateMetrics | backend/src/utils/analyticsHelper.js:4-21 | `totalFiles` and `totalSize` cover all files, and the counts and sizes cover only image, video and json |
| AnalyticsHelper.MetricsBounded | backend/src/utils/analyticsHelper.js:8-17 | each count is at most `totalFiles`, the three counts together too, and each size is at most `totalSize` |
| AnalyticsHelper.CalculateProcessingMetrics | backend/src/utils/analyticsHelper.js:23-43 | `totalProcessed` counts every file; the averages are the means over files with a nonzero time and a nonzero accuracy; both are 0 when no file has a time |
| AnalyticsHelper.AveragesWithin | backend/src/utils/analyticsHelper.js:23-43 | with times in [0,100] and accuracies in [85,100], the average time lies in [0,100] and a computed average accuracy in [85,100] |
| AnalyticsHelper.TimeSumWithin | backend/src/utils/analyticsHelper.js:30-33 | the sum of times in [0,100] lies between 0 and 100 times their number |
| AnalyticsHelper.AccuracySumWithin | backend/src/utils/analyticsHelper.js:35-39 | the sum of accuracies in [85,100] lies between 85 and 100 times their number |
| AnalyticsHelper.CalculateStorageEfficiency | backend/src/utils/analyticsHelper.js:45-49 | 95 for a positive total size and 50 otherwise |
| AnalyticsHelper.CreateAnalyticsRecord | backend/src/utils/analyticsHelper.js:51-67 | the record holds the metrics and processing metrics of the files, the efficiency of their total size, and a daily-upload count of at most the number of files |
| AnalyticsHelper.TrendDays | backend/src/utils/analyticsHelper.js:72 | 7 for `7d`, 30 for `30d`, 90 for any other period |
| AnalyticsHelper.GetTrendData | backend/src/utils/analyticsHelper.js:69-90 | one point per day of the period, calendar days ascending one apart and ending today; values 0 without history and otherwise the percentile of the draw, in [0,99] |
| AnalyticsHelper.GetDistributionData | backend/src/utils/analyticsHelper.js:92-102 | the per-category counts of the files, summing to at most the number of files |
| AnalyticsController.IsDBAvailable | backend/src/controllers/analyticsController.js:8-14 | true exactly when a connection exists and its ready state is 1; a probe that throws is false |
| AnalyticsController.ScanDashboardOf | backend/src/controllers/analyticsController.js:25-55 | without a database `totalFiles` counts every directory entry, the seven counts sum to at most that, and efficiency is 95 |
| AnalyticsController.ScanDashboardStats | backend/src/controllers/analyticsController.js:18-65 | the directory-mode dashboard over the entries' looked-up MIME types, a missing directory counting as empty |
| AnalyticsController.DatabaseDashboardStats | backend/src/controllers/analyticsController.js:68-90 | with a database the totals and per-category counts are those of the non-deleted files, and efficiency follows their total size |
| AnalyticsController.GetDashboardStats | backend/src/controllers/analyticsController.js:16-95 | the directory branch is taken exactly when the database is unavailable, and each branch reports its own file count |
| AnalyticsController.ScanBreakdownOf | backend/src/controllers/analyticsController.js:104-128 | seven rows in the order image, video, audio, document, json, code, archive, with each category's count and size |
| AnalyticsController.ScanBreakdown | backend/src/controllers/analyticsController.js:114-127 | the misspelled fallback MIME type gives the same breakdown as the correct one |
| AnalyticsController.ScanBreakdownBounded | backend/src/controllers/analyticsController.js:130-134 | each percentage is the share of the known-category size rounded over the rationals, all are 0 when that size is 0, and every one is at most 100 |
| AnalyticsController.ScanBreakdownNearHundred | backend/src/controllers/analyticsController.js:113-134 | the rows' sizes sum to the known-category size, and the seven rounded percentages sum to between 97 and 103 |
| AnalyticsController.SevenSharesNearHundred | backend/src/controllers/analyticsController.js:133 | seven rounded shares of a whole sum to within 3 of 100 |
| AnalyticsController.RoundingDrift | backend/src/controllers/analyticsController.js:133 | n rounded shares each drift by at most half a unit, bounding the sum's drift by n/2 |
| AnalyticsController.DatabaseBreakdownOf | backend/src/controllers/analyticsController.js:144-187 | seven rows in category order with each category's count and total size |
| AnalyticsController.DatabaseBreakdown | backend/src/controllers/analyticsController.js:142 | the breakdown is taken over the non-deleted files |
| AnalyticsController.DatabaseBreakdownCountBased | backend/src/controllers/analyticsController.js:189-199 | the percentages are count shares over all non-deleted files, unknown categories included, and all 0 without files |
| AnalyticsController.DatabaseBreakdownSumsToHundred | backend/src/controllers/analyticsController.js:189-199 | over a valid store with live files the seven shares, as reals, sum to exactly 100 |
| AnalyticsController.CountSharesSum | backend/src/controllers/analyticsController.js:198 | the count shares sum to the share of the summed counts |
| AnalyticsController.ScanDistributionOf | backend/src/controllers/analyticsController.js:246-268 | seven rows in category order with each category's count |
| AnalyticsController.ScanDistribution | backend/src/controllers/analyticsController.js:256-269 | the directory-mode distribution over the entries' looked-up MIME types |
| AnalyticsController.ScanDistributionBounded | backend/src/controllers/analyticsController.js:271-274 | each percentage is the share of the known-category file count rounded over the rationals, all 0 when there is none, each at most 100 |
| AnalyticsController.ScanDistributionNearHundred | backend/src/controllers/analyticsController.js:256-274 | the counts sum to the known-category count, and the rounded percentages sum to between 97 and 103 |
| AnalyticsController.DatabaseDistributionOf | backend/src/controllers/analyticsController.js:285-338 | seven rows in category order with each count, missing counts as 0, and `total` as the sum of the seven |
| AnalyticsController.DatabaseDistribution | backend/src/controllers/analyticsController.js:282-286 | the total is the known-category count of the non-deleted files, at most their number |
| AnalyticsController.DatabaseDistributionSumsToHundred | backend/src/controllers/analyticsController.js:288-337 | the percentages are all 0 when the total is 0 and otherwise, as reals, sum to exactly 100 |
| AnalyticsController.GetPerformanceMetrics | backend/src/controllers/analyticsController.js:350-389 | fixed defaults without a database; otherwise every live file processed, speed `max(0, 100 - t/2)` for a nonzero average time `t` and 0 for none, the average accuracy and the efficiency of the live size |
| AnalyticsController.PerformanceWithinBounds | backend/src/controllers/analyticsController.js:371-380 | with simulated times in [0,100] and accuracies in [85,100], speed is 0 or in [50,100] and accuracy 0 or in [85,100] |
| AnalyticsController.CreateAnalyticsSnapshot | backend/src/controllers/analyticsController.js:391-414 | 503 without a database and nothing stored; 500 and nothing stored when the read or the save fails; otherwise 201 and exactly one record appended over the live files |
| AnalyticsController.GetTrend | backend/src/controllers/analyticsController.js:211-236 | the period defaults to `7d`; a failed read of the snapshots is a 500 with no series; otherwise one point per day of it ending today, all 0 without a database or history |
| FileModel.Violations | backend/src/models/File.js:11-37 | no messages exactly when the document is valid; a category other than image, video or json yields a message |
| FileModel.WithDefaults | backend/src/models/File.js:4-62 | a new document gets the drawn id, the creation time and `isDeleted` false, and keeps the given fields |
| FileModel.Live | backend/src/models/File.js:58-62 | exactly the documents of the store that are not soft-deleted |
| FileModel.Insert | backend/src/models/File.js:4-37 | a save succeeds exactly when the document is valid and clashes with no stored `fileId` or `filename`, and then appends it |
| FileModel.InsertKeepsInvariant | backend/src/models/File.js:4-19 | a successful save keeps every stored document valid and both keys unique |
| FileModel.OtherCategoriesRejected | backend/src/models/File.js:32-37 | a document of category audio, document, code, archive or unknown is refused with a validation error |
| ActivityModel.ParseType | backend/src/models/Activity.js:15-20 | accepts exactly the five type names and inverts `TypeName` |
| ActivityModel.ParseStatus | backend/src/models/Activity.js:25-29 | accepts exactly the three status names and inverts `StatusName` |
| ActivityModel.CreateActivity | backend/src/models/Activity.js:4-34 | a record is created exactly when its type and any given status are valid; status defaults to success, the timestamp to now, and the file fields are plain copies |
| FileController.StoredNamePieces | backend/src/controllers/fileController.js:45 | splitting a stored name on `-` gives the time, the token and the pieces of the original name |
| FileController.ListingNameRoundTrip | backend/src/controllers/fileController.js:171-172 | the listing recovers the original name from the stored name |
| FileController.DeleteNameRoundTrip | backend/src/controllers/fileController.js:311 | delete's recovery gives the original name, or the whole stored name when the original is empty |
| FileController.RecoveriesDiffer | backend/src/controllers/fileController.js:172-311 | on `1-a-` the listing recovers the empty name while delete falls back to the whole name |
| FileController.NamesWithoutDashKept | backend/src/controllers/fileController.js:172-311 | a name without `-` is kept unchanged by both recoveries |
| FileController.ListingName | backend/src/controllers/fileController.js:171-172 | a name with at most two dash-pieces is kept, and otherwise the pieces after the second are rejoined |
| FileController.DeleteName | backend/src/controllers/fileController.js:311 | never empty for a non-empty name, and the rejoined tail when that is not empty |
| FileController.FilesOf | backend/src/controllers/fileController.js:30-33 | the `files` field, else the `file` field, with a single file made a one-element list |
| FileController.UploadDocument | backend/src/controllers/fileController.js:45-73 | the document has the stored name, the file's name, type and size, and the classifier's category |
| FileController.UploadActivity | backend/src/controllers/fileController.js:77-89 | the activity is a successful upload of that document |
| FileController.SaveAll | backend/src/controllers/fileController.js:43-129 | in both modes each file is written to disk under its stored name until the first failed move; without a database no record is stored; with one the documents are saved in order, each followed by its activity, until a failed move, `null` metadata or the first refused document, keeping what came before |
| FileController.SaveAllKeepsInvariant | backend/src/controllers/fileController.js:75 | the saves keep the store's validity and key uniqueness |
| FileController.UploadRecords | backend/src/controllers/fileController.js:52-114 | with a database `null` metadata fails the first file with nothing saved, and a 201 saves one document of a schema category and one activity per file; earlier documents are kept and the store invariant is preserved in every mode |
| FileController.UploadSuccessViews | backend/src/controllers/fileController.js:91-128 | a 201 shows for each file the name it was written under, from which the listing recovers the original name, and the classifier's category |
| FileController.UploadFiles | backend/src/controllers/fileController.js:16-144 | 400 exactly without files, and otherwise 201 or 500; unparsable metadata is a 500 with nothing written; the files written are, in order, a prefix of the request's files under their stored names; a 201 moved every file and has `count` equal to their number; without a database nothing is recorded and the upload succeeds exactly when the metadata parses and every move succeeds |
| Sorting.SortBy | backend/src/controllers/fileController.js:197-206 | a permutation of the input, sorted by the comparator, in which elements the comparator ties keep their input order, as the stable `Array.prototype.sort` does |
| FileController.ParseSort | backend/src/controllers/fileController.js:199-207 | `oldest`, `name` and `size` select their modes and anything else sorts newest first |
| FileController.ListedLeIsPreorder | backend/src/controllers/fileController.js:198-207 | each directory-mode sort order is a total preorder |
| FileController.RecordLeIsPreorder | backend/src/controllers/fileController.js:239-246 | each database-mode sort order is a total preorder |
| FileController.PageOf | backend/src/controllers/fileController.js:155 | the page is at least 1 |
| FileController.LimitOf | backend/src/controllers/fileController.js:156 | the limit is at least 1 |
| FileController.ScanMatches | backend/src/controllers/fileController.js:163-207 | each directory entry passing the category and case-insensitive name filters, as often as it is listed, and nothing else, in the requested order, with tied entries in directory order |
| FileController.ScanListingSound | backend/src/controllers/fileController.js:209-220 | `total` is the number of matching entries, every entry when nothing is filtered; the page holds at most `limit` of them, from `skip` on, matching and in order |
| FileController.DatabaseMatches | backend/src/controllers/fileController.js:225-246 | each live document passing the query, as often as it is stored, and nothing else, in the requested order, at most the live count |
| FileController.DatabaseListingSound | backend/src/controllers/fileController.js:244-271 | no soft-deleted document is listed; `total` is the number of matching documents, every live one when nothing is filtered; the page holds at most `limit` matching documents from `skip` on, in order |
| FileController.ScanDelete | backend/src/controllers/fileController.js:286-347 | 404 for a missing directory or no exact name match; 500 keeps the directory when the unlink fails; 200 removes exactly the matched entry |
| FileController.ScanDeleteTwice | backend/src/controllers/fileController.js:297-326 | with unique names, deleting the same file again is a 404 |
| FileController.FindLive | backend/src/controllers/fileController.js:351 | the index of a live document with that id, and none exactly when there is no such document |
| FileController.DatabaseDelete | backend/src/controllers/fileController.js:351-393 | 404 unless a live document has the id; otherwise it is marked deleted and one delete activity appended |
| FileController.DatabaseDeleteEffect | backend/src/controllers/fileController.js:351-368 | the delete keeps the store invariant, shrinks the live documents by one, and a repeated delete is a 404 |
| FileController.GetFileById | backend/src/controllers/fileController.js:399-409 | the live document with that id, or a 404 exactly when there is none |
| FileController.NotFoundAfterDelete | backend/src/controllers/fileController.js:403-409 | after a delete the document is not found by id |
| ActivityController.FeedMatches | backend/src/controllers/activityController.js:29-37 | each activity of the requested type, or every one when none is given, as often as it is logged, and nothing else, newest first |
| ActivityController.SelectKindCount | backend/src/controllers/activityController.js:29-33 | a kind's name selects as many activities as `CountKind` counts for that kind |
| ActivityController.SelectNoneCount | backend/src/controllers/activityController.js:29-33 | a non-empty `type` that names no kind selects nothing |
| ActivityController.SelectAllCount | backend/src/controllers/activityController.js:29-33 | an empty `type` selects the whole log |
| ActivityController.GetActivitiesSound | backend/src/controllers/activityController.js:9-73 | clamped page and limit; an empty page with zero pagination without a database or on a query error; otherwise `total` counts the matches and the page holds at most `limit` of them, newest first |
| ActivityController.FeedTotal | backend/src/controllers/activityController.js:29-35 | the number of activities the feed selects, which `GetActivitiesSound` makes the reported `total`, is the whole log for no `type`, the kind's count for a kind's name, and 0 for any other name |
| ActivityController.ClearActivities | backend/src/controllers/activityController.js:75-86 | every activity is removed, and a failing store is a 500 |
| ActivityController.ClearEmptiesFeedAndStats | backend/src/controllers/activityController.js:77 | after a clear the feed and the stats are empty |
| ActivityController.CountKind | backend/src/controllers/activityController.js:90-97 | at most the log's length, and 0 exactly when no activity has that type |
| ActivityController.KindCountsSum | backend/src/controllers/activityController.js:90-97 | the five per-type counts sum to the number of activities |
| ActivityController.GetActivityStats | backend/src/controllers/activityController.js:88-111 | a key exactly for each type present, holding its count; a failing store is a 500 |
| ActivityController.StatsCoverLog | backend/src/controllers/activityController.js:99-102 | the counts in the stats sum to the number of activities |
| ErrorHandler.FallbackStatus | backend/src/middleware/errorHandler.js:4 | `status`, else `statusCode`, else 500, with 0 falling through |
| ErrorHandler.HandleError | backend/src/middleware/errorHandler.js:1-38 | 400 with the messages for a validation error first, then 409 for code 11000, then 401 for a bad token, else the fallback status; never a success; a stack only for generic errors in development |
| ErrorHandler.RefusedInsertResponse | backend/src/middleware/errorHandler.js:8-22 | given the error of a refused File save, the middleware answers a 400 listing the failing paths, or a 409 for a key clash, without a stack; no endpoint passes such an error on, since the upload answers a refused save itself with a 500 (`UploadFiles`) |
| AuthController.FirstWithEmail | backend/src/controllers/authController.js:131 | `users.find` by email: the first match, or none exactly when no user has it |
| AuthController.SignupChecks | backend/src/controllers/authController.js:53-65 | both fields given first, then a password of at least 6 UTF-16 code units, as `password.length` counts them |
| AuthController.PasswordLengthInCodeUnits | backend/src/controllers/authController.js:60-65 | three characters above U+FFFF pass the length check, five ASCII characters fail it and six pass |
| AuthController.Register | backend/src/controllers/authController.js:71-114 | a duplicate is a 400; otherwise one user with the lowercased email and hashed password is appended, or a failed write is a 500 |
| AuthController.SignupAsWritten | backend/src/controllers/authController.js:49-115 | signup with the duplicate check on the email as submitted |
| AuthController.SignupAsWrittenDuplicates | backend/src/controllers/authController.js:70-85 | signing up `A@b.c` beside a stored `a@b.c` succeeds and leaves two users with one email |
| AuthController.Signup | backend/src/controllers/authController.js:49-115 | 400 for missing fields or a password under 6 code units; 201 exactly when the checks pass, the lowercased email is new and the write succeeds, appending one user |
| AuthController.SignupKeepsEmailsUnique | backend/src/controllers/authController.js:70-91 | signup keeps stored emails lowercased and unique |
| AuthController.Login | backend/src/controllers/authController.js:117-170 | 400 for missing fields; 200 exactly when the lowercased email is stored and the password verifies; 401 with one message otherwise |
| AuthController.LoginFailuresIndistinguishable | backend/src/controllers/authController.js:131-146 | an unknown email and a wrong password get the same response |
| AuthController.SignupThenLogin | backend/src/controllers/authController.js:49-162 | whoever signs up can log in with the same credentials and gets the new account |
| AuthController.GetProfile | backend/src/controllers/authController.js:172-182 | the user with the token's id, or 404 exactly when there is none |
| Client.ClientTableIsServerTable | script.js:14-22 | the client's 39 MIME types are the server's rows, in order, with the same categories |
| Client.MpegOnlyOnServer | backend/src/config/constants.js:11 | the server accepts `video/mpeg`, which the client table lacks |
| Client.ClientMimeKnownToServer | script.js:14-22 | every client MIME type classifies on the server to its client category |
| Client.ValidateFile | script.js:365-393 | too large exactly above 500 MiB whatever the type; accepted exactly when small enough and the MIME type or the lowercased extension is allowed |
| Client.ExtensionAfterLastDot | script.js:378 | the extension is the lowercased text after the last dot |
| Client.NameWithoutDotIsExtension | script.js:378 | a name without a dot is its own extension |
| Client.AcceptedFitsServer | script.js:365-371 | a file the client accepts passes the server's size check |
| Client.BoundsDisagree | script.js:367 | a file one byte over 500 MiB is refused by the client and passes the server's bound |
| Client.Truncate | script.js:712-714 | on the text's UTF-16 code units: the text when it fits, else its first n units and `...` |
| Client.TruncateProperties | script.js:712-714 | at most n+3 units, starting with the text's first n, and idempotent |
| Client.TruncateUnchangedIff | script.js:712-714 | the text comes back unchanged exactly when it fits or already ends in `...` at length n+3 |
| Client.TruncateWellFormedIff | script.js:712-714 | a well-formed text stays well formed exactly when the cut does not fall between the halves of a surrogate pair |
| Client.TruncateSplitsPair | script.js:712-714 | two emoji truncated to length 1 leave a lone high surrogate |
| Client.TimeAgo | script.js:930-941 | just now under a minute, then whole minutes under an hour, whole hours under a day, else whole days |
| Client.FutureIsJustNow | script.js:930-941 | a time in the future reads `just now` |
| Client.FirstMatchingIcon | script.js:701-710 | the icon of some rule the type passes, or `fa-file` |
| Client.GetIcon | script.js:702 | an `image/` type gets `fa-image` |
| Client.GetIconFollowsRules | script.js:701-710 | `getIcon` is the first matching rule of the listed seven, in order |
| Client.InitialTheme | script.js:265 | the stored theme when a non-empty one is stored, else `light` |
| Client.Toggle | script.js:269-272 | light becomes dark and anything else becomes light |
| Client.ToggleTwice | script.js:269-272 | toggling twice restores light or dark, and toggling three times equals toggling once |
| Client.GetFilesParams | script.js:48-56 | `all` becomes the empty category and the limit is always 12 |
| Client.RequestAsServerReadsIt | script.js:48-56 | the server reads back the page, a limit of 12, the category filter exactly when one was chosen, and the sort |
| Client.Step | script.js:461-528 | search, filter and sort changes reset to page 1 and reload; prev moves back only above page 1 and next forward only below the last page |
| Client.StepKeepsInvariant | script.js:461-528 | the page and the page count stay at least 1 |
| Client.Run | script.js:449-528 | any event sequence keeps the page and the page count at least 1 |
| Client.NavigationStaysOnData | script.js:493-505 | after a non-empty page, prev and next only request pages that hold files |
| Client.FlatCounts | backend/src/utils/fileHelper.js:39-45 | the flat statistics object has each known category's count under its name |
| Client.DashboardTotalOmitsCode | script.js:1171-1179 | the total ignores `code`: it is the sum of the seven counts minus the code count |

## Left out

- Filesystem I/O (`readdirSync`, `statSync`, `unlinkSync`, `file.mv`, and the users file): the directory is an input sequence and a missing one is `None`; an unlink, a move and the users-file write succeed or fail by a given `bool` or oracle. A users file that cannot be read counts as empty, as in the source. `existsSync`, `mkdirSync` and `statSync` never fail.
- The `mime-types` lookup by file name: an uninterpreted function with the octet-stream fallback.
- MongoDB queries, counts and aggregation pipelines: in-memory sequences. Ties in a database sort keep store order, which MongoDB does not promise.
- `$regex` search in database mode: an abstract predicate, since a regex is not a substring match.
- `localeCompare`: a given total preorder on names.
- `Date.now`, `Math.random`, `crypto.randomUUID` and `uuidv4`: oracles. Ids drawn from `Date.now` may collide; the model takes the store's unique-key check as the guard.
- bcrypt and JWT: abstract hash, verify and sign functions.
- `formatFileSize`, `formatBytes` and `formatSize`: they depend on floating-point `Math.log` and `toFixed`. Sizes stay in bytes.
- Socket.IO broadcasts, `getStatsData` (the socket-side copy of the dashboard computation), `updateFileBroadcast`, the broadcast timer, the server wiring and the route files: transport and plumbing.
- `uploadMiddleware.js`: no route mounts it.
- The Analytics model: a persistence shape covered by `CreateAnalyticsRecord`.
- The client's DOM rendering, `fetch` wrappers, WebSocket manager, localStorage and fetch patching: UI and I/O. The gallery's requests are data, not calls.
- `getFileById` without a database: the endpoint has no such branch, and Mongoose's buffering timeout is not modelled.
- Upload without a database returns mock entries whose ids come from `crypto.randomUUID`; they are modelled as views of the documents the request would build.
- UploadFiles: the names written are a sequence of stored names, not a change to the directory the listing reads; sizes, contents and modification times of written files are not modelled. The message of a 500 (`error.message`) is not modelled.
- Store failures other than those listed in the introduction: a failing `File.find`, `countDocuments` or `aggregate` in the dashboard, breakdown, distribution and performance handlers, in `getFiles`, `deleteFile` and `getFileById` goes through `next(error)` and ends as a 500; these endpoints are modelled as if the store answers. A failing `Activity.create` after an upload or a database delete is only logged by the source; the model always records the activity.
- ScanBreakdownBounded: the percentage is rounded over the rationals. The source rounds a double, and where the share is a half-way case that the double misses (29 of 200 is 14.4999… in doubles) the source gives one less (14, where the model gives 15).
- ScanDistributionBounded: the same rational rounding as `ScanBreakdownBounded`, for the count shares of analyticsController.js line 273.
- DatabaseBreakdownSumsToHundred: the shares are reals and sum to exactly 100; in doubles the sum may miss 100 by rounding error (three live files in three categories give 99.99999999999999).
- DatabaseDistributionSumsToHundred: exact over reals only, for the same reason as `DatabaseBreakdownSumsToHundred`.
- GetTrendData: the days are consecutive calendar-day numbers ending today. The source steps back with the local-time `setDate` and prints the UTC date, so near midnight across a daylight-saving change a date can repeat or be skipped; time zones are not modelled.
- Strings.ToLower: lower-cases ASCII letters only; JavaScript's `toLowerCase` also folds other scripts.
- AnalyticsController.GetPerformanceMetrics: the speed bound assumes a non-negative average time; a negative simulated time is not bounded.
- Client.GetIcon: its contract states only the first rule; the full order is `Client.GetIconFollowsRules`.

## Findings

| source | as written | input that shows it | evidently intended | confidence | as-written member | corrected member |
|---|---|---|---|---|---|---|
| backend/src/controllers/authController.js:70 | the duplicate check compares the submitted email verbatim with stored emails, which are lowercased | stored user `a@b.c`, signup with `A@b.c` / `secret`: 201 and two users with email `a@b.c` | compare the lowercased email, as login does, and refuse the signup with 400 | high, not executed | AuthController.SignupAsWritten (shown by AuthController.SignupAsWrittenDuplicates) | AuthController.Signup (AuthController.SignupKeepsEmailsUnique, AuthController.SignupThenLogin) |
