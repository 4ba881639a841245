# traktor-charts: the play-history store and its charts

This project models the persistence and aggregation core of traktor-charts
(`src/db.go`). The core is a SQLite store with two tables:

- `tracks` holds one row per audio fingerprint. `audio_id` is UNIQUE, so the
  metadata seen first wins.
- `plays` holds one row per playback, with its year, month, day, hour and
  minute.

On top of the store sit the chart queries. The yearly top 15 and the monthly
top 10 group plays by track, count them, and order them by count descending,
then by artist ascending. The rollup walks the years 2020 down to 2011, and
within each year the months 12 down to 1, keeping only the periods whose
chart is not empty.

Modules:

- `Records`: the table rows, the parser's two record shapes, `ChartEntry` and
  the nested report.
- `Collation`: SQLite's BINARY text order, which the `artist ASC` tie-break
  uses.
- `Format`: `ChartEntry.StringLength`, with Go's truncating `/` and `%` and
  its `%d` / `%02d` verbs written out, plus a parser that reads the result
  back.
- `TrackTable`: what the write statements and the fingerprint lookup do to a
  `Tables` value. Row ids follow SQLite's rowid rule: one more than the
  largest id present, 1 in an empty table.
- `Charts`: the chart statements as `Query` values. `IsAnswer` says which
  results a conforming SQL engine may return. `Execute` groups, sorts and
  applies LIMIT, and is proved to return such a result.
- `ChartLaws`: what repeated imports do to the counts, and the tie-break
  scenario worked through.
- `Rollup`: which sections a correct report holds (`IsReport`) and the shape
  that follows from that.
- `Db`: the class `Database` holding both tables. Its methods are the
  source's functions, and each is proved against the functions above.

## Model

| member | source | states |
|---|---|---|
| Collation.LexLeqTotal | src/db.go:70 | any two artist names are ordered one way or the other by the BINARY collation |
| Collation.LexLeqTransitive | src/db.go:82 | the artist order is transitive |
| Format.StringLengthRoundTrip | src/db.go:46-48 | reading the rendered "Mm:SSs" back gives the track length, for every length including negative ones |
| Format.StringLengthShape | src/db.go:46-48 | for a length of zero or more: the minutes are `length / 60` in plain decimal, and the seconds are `length % 60` as exactly two digits |
| Format.FormatIntRoundTrip | src/db.go:47 | the `%d` and `%02d` renderings parse back to the value and hold only digits and a sign |
| Format.Decimal | src/db.go:47 | `%d` of a value of zero or more is at least one digit, only digits, and has no leading zero |
| Format.GoDivMod60 | src/db.go:47 | Go's truncating `/60` and `%60` recombine to the length; they match Euclidean division when the length is 0 or more; for a negative length the remainder lies in (-60, 0] |
| TrackTable.Lookup | src/db.go:143-161 | `SELECT id FROM tracks WHERE audio_id = ?` gives -1 when no row has the fingerprint, otherwise the id of a row that has it |
| TrackTable.LookupExact | src/db.go:143-161 | under the UNIQUE constraint the lookup is -1 exactly when the fingerprint is absent, and otherwise equals the id of every row with that fingerprint |
| TrackTable.InsertTrackKeepsKeys | src/db.go:171-177 | the track insert keeps ids and fingerprints unique and leaves plays alone. A known fingerprint leaves the table unchanged. A new one appends exactly one row carrying the entry's metadata, with an id above every existing id |
| TrackTable.InsertTrackRegisters | src/db.go:171-178 | after the track insert the fingerprint is stored, whether the row was added or rejected as a duplicate, so the lookup that follows finds it |
| TrackTable.InsertEntryRecordsOnePlay | src/db.go:170-180 | `insertEntry` keeps the schema constraints and appends exactly one play, leaving the earlier plays as they were. The new play refers to the row with the entry's fingerprint, never the sentinel -1, and copies the entry's time |
| TrackTable.InsertPlayKeepsKeys | src/db.go:163-168 | the play insert keeps every primary key positive and distinct |
| TrackTable.FirstSeenMetadataWins | src/db.go:170-180 | two imports with one new fingerprint add one track row, which holds the first entry's metadata; both plays refer to that row |
| TrackTable.InsertEntryKeepsReferences | src/db.go:170-180 | if every play refers to a stored track, `insertEntry` keeps it so |
| TrackTable.TrackCountIsFingerprintCount | src/db.go:22 | with unique fingerprints, the tracks table has as many rows as there are distinct fingerprints |
| Charts.PlayCount | src/db.go:63-69 | `count(plays.track_id)` for one track is at most the number of plays, and is 0 exactly when no play in the window refers to that track |
| Charts.Groups | src/db.go:63-69 | the grouped relation has one row per stored track with at least one play in the window, carrying that play count; with unique track ids no group repeats |
| Charts.SortRows | src/db.go:70 | the ORDER BY keeps exactly the same rows (a permutation), puts them in chart order, and creates no duplicates |
| Charts.InsertSorted | src/db.go:82 | inserting a row into a sorted sequence keeps it sorted |
| Charts.InsertNoDup | src/db.go:82 | inserting a new row into a duplicate-free sequence keeps it duplicate-free |
| Charts.ExecuteIsAnswer | src/db.go:61-85 | group, order and LIMIT give a correct answer: min(LIMIT, number of groups) distinct groups in chart order, and no group left out ranks above a group kept |
| Charts.ExecuteIsChart | src/db.go:105-133 | reading every row of the engine's answer into a chart entry gives a chart of a correct answer |
| Charts.GroupsNonEmpty | src/db.go:64-68 | the grouped relation is non-empty exactly when some play in the window refers to a stored track |
| Charts.ChartFacts | src/db.go:120-133 | a chart read off a correct answer has at most LIMIT entries in chart order. Each entry is a stored track with its play count, so at least 1. With a positive LIMIT the chart is empty exactly when no play in the window refers to a track |
| ChartLaws.EntryAddsOnePlay | src/db.go:170-180 | one import adds one to the count of the track its fingerprint resolves to, in every window containing its time, and changes no other count |
| ChartLaws.ImportAgainKeepsTracks | src/db.go:171-178 | importing an entry again adds no track and resolves to the same id |
| ChartLaws.RepeatedEntryTracks | src/db.go:171-177 | of n imports of one entry, only the first can add a track row |
| ChartLaws.RepeatedEntryCounts | src/db.go:170-180 | importing one entry n times adds exactly n to its track's count in every window containing its time |
| ChartLaws.RepeatedEntryLeavesOthers | src/db.go:170-180 | importing one entry n times leaves every other track's count unchanged |
| ChartLaws.ZedStage | src/db.go:170-180 | three imports of Zed's track into an empty store give one row with id 1 and three March 2015 plays |
| ChartLaws.AbelStage | src/db.go:170-180 | three more imports of Abel's track give a second row, id 2, with three plays; Zed keeps three |
| ChartLaws.TieBreakScenario | src/db.go:61-73 | after those imports the March 2015 chart has exactly one correct answer, [Abel's track with 3, Zed's track with 3]: the counts are equal, so artist ascending decides |
| ChartLaws.AnswerOfTwo | src/db.go:61-73 | with exactly two distinct groups and a LIMIT of at least 2, listing them in ranking order is a correct answer |
| ChartLaws.OnlyOneOrderOfTwo | src/db.go:70 | with exactly two groups, a correct answer must list them in the one order the ranking allows |
| Rollup.ActiveYearsLaw | src/db.go:203-205 | the years kept are strictly descending, lie within the range walked, and a year is kept exactly when some play in it refers to a track |
| Rollup.ActiveMonthsLaw | src/db.go:207-212 | the months kept are strictly descending, lie within 1..12, and a month is kept exactly when some play in it refers to a track |
| Rollup.MonthChartedInYear | src/db.go:203-207 | a month with a charted play lies in a year with a charted play, so skipping the months of an empty year skips no charted month |
| Rollup.YearSections | src/db.go:203-216 | year sections are strictly descending within 2011..2020. Each holds a non-empty, ordered chart of at most 15 entries. A year has a section exactly when it has a charted play |
| Rollup.MonthSections | src/db.go:207-213 | month sections of a year are strictly descending within 1..12 and belong to that year. Each holds a non-empty, ordered chart of at most 10 entries. A month has a section exactly when it has a charted play |
| Rollup.ReportShape | src/db.go:197-218 | the whole report shape: both of the above for every year section |
| Rollup.ReportCoversEveryChartedMonth | src/db.go:197-218 | every month of 2011..2020 with a charted play has its section in the report |
| Db.Database.constructor | src/db.go:14-32 | a new store has both tables empty and meets the schema constraints |
| Db.Database.InitializeDB | src/db.go:182-195 | afterwards both tables are empty, because the old file is removed before the open; the result reports whether the open succeeded |
| Db.Database.CountForTable | src/db.go:87-103 | `COUNT(*)` of plays is the number of plays; `COUNT(*)` of tracks is the number of distinct fingerprints stored |
| Db.Database.FindTrackByAudioId | src/db.go:143-161 | -1 exactly when no track has the fingerprint, otherwise the id of the track that has it |
| Db.Database.InsertTrack | src/db.go:171-177 | the track insert as the store executes it: `inserted` is false exactly on the UNIQUE violation; the new state is `AfterInsertTrack` of the old |
| Db.Database.InsertPlay | src/db.go:163-168 | tracks are unchanged and exactly one play row is appended, with the next rowid, the given track id and the entry's time |
| Db.Database.InsertEntry | src/db.go:170-180 | the new state is `AfterInsertEntry` of the old, with the schema constraints kept. Exactly one play is appended and the earlier plays are unchanged. The fingerprint is stored, and the new play refers to its id, never -1 |
| Db.Database.MonthlySections | src/db.go:207-213 | the month sections of one year: exactly the charted months from 12 down to 1, each with its year and a correct monthly chart |
| Db.Database.ChartEntryFindBySql | src/db.go:105-118 | the entries are a chart read off a correct answer to the query: at most LIMIT entries, in chart order, and empty exactly when no play in the window refers to a track |
| Db.Database.FindChartEntriesByYear | src/db.go:135-137 | the yearly chart: a correct top-15 answer for that year, ordered, and empty exactly when the year has no charted play |
| Db.Database.FindChartEntriesByMonthAndYear | src/db.go:139-141 | the monthly chart: a correct top-10 answer for that month, ordered, and empty exactly when the month has no charted play |
| Db.Database.GetTraktorData | src/db.go:197-218 | the result is a correct report on the store (`IsReport`): both row counts, then one section per charted year from 2020 down to 2011, each with its chart and one section per charted month from 12 down to 1 |

## Left out

- The SQLite driver, SQL text, and statement preparation are not modelled. The statements are given meaning directly: `Query` for the chart statements, and the `TrackTable` functions for the writes.
- `initializeDB`'s file name, `os.ExpandEnv` and `os.Remove` are not modelled. The store object stands for the file, and whether `sql.Open` succeeds is a parameter.
- Logging with `fmt.Println` is left out, and so is the regular expression on the error text. The UNIQUE violation is modelled as its own outcome (`InsertTrack` returns false).
- Query and Scan failures are left out. In the Go code a failed `db.Query` in `countForTable` or `findTrackByAudioId` goes on to use a nil result, so that path has no defined outcome. `chartEntryFindBySql` returns an empty chart on a failed query; the model assumes queries succeed.
- Write failures other than the UNIQUE violation (disk full, locked file) are left out. So in the model `insertEntry` always stores the track, and never records the sentinel -1.
- `countForTable` returns -1 only when `SELECT COUNT(*)` yields no row, which SQLite never does. The model has no such path.
- Column affinity is not modelled. SQLite gives columns declared `STRING` NUMERIC affinity, so a text value that reads as a number is stored as a number. This would change the artist order for purely numeric artist names, and the uniqueness of numeric-looking fingerprints. The model stores all text as text.
- SQL does not fix the order of rows that tie on both count and artist. `IsAnswer` leaves that order open rather than picking one.
- Rowids are unbounded integers; SQLite's 64-bit rowid limit is not modelled.
- The upstream log parser (`TraktorXMLEntry`, `TraktorXMLEntryCollection` and their accessors) is not part of this model. Its records are plain values whose accessors read as fields.
- A play's track reference is not enforced. The schema has no foreign key, and `insertPlay` stores whatever id it is given. The model follows the code: `InsertPlay` accepts any id. `InsertEntryKeepsReferences` shows that `insertEntry` on its own never creates a dangling reference.
- Month and day ranges are not checked. The code stores the time components as given, and so does the model.
