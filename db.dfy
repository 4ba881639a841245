/** The store itself: an object owning the two tables, whose methods run
    the schema reset, the write statements, the fingerprint lookup, the row
    counts, the chart queries and the year-by-month rollup. Each method is
    proved against the functions of TrackTable, Charts and Rollup. */
module Db {
  import opened Records
  import opened TrackTable
  import opened Charts
  import opened Rollup

  /** The two tables `countForTable` is asked about. */
  datatype TableName = PlaysTable | TracksTable

  class Database {
    var tracks: seq<Track>
    var plays: seq<Play>

    function State(): Tables
      reads this
    {
      Tables(tracks, plays)
    }

    /** The schema's constraints hold on the stored rows. */
    ghost predicate Valid()
      reads this
    {
      WellFormed(State())
    }

    constructor ()
      ensures Valid() && tracks == [] && plays == []
    {
      tracks := [];
      plays := [];
    }

    /** `initializeDB`: the old file is removed before the open is
        attempted, so the store is empty afterwards either way; when the
        open succeeds the schema is created on it. `openSucceeds` is the outcome
        of opening the file, which the model takes as given. */
    method InitializeDB(openSucceeds: bool) returns (ok: bool)
      modifies this
      ensures Valid()
      ensures tracks == [] && plays == []
      ensures ok == openSucceeds
    {
      tracks := [];
      plays := [];
      ok := openSucceeds;
    }

    /** `countForTable`: `SELECT COUNT(*)` on one table. The tracks table
        holds one row per distinct fingerprint, so its count is the number
        of distinct fingerprints seen. */
    function CountForTable(table: TableName): (n: int)
      reads this
      requires Valid()
      ensures n >= 0
      ensures table == PlaysTable ==> n == |plays|
      ensures table == TracksTable ==> n == |Fingerprints(tracks)|
    {
      TrackCountIsFingerprintCount(tracks);
      match table
      case PlaysTable => |plays|
      case TracksTable => |tracks|
    }

    /** `findTrackByAudioId`: -1 exactly when no track has the fingerprint,
        otherwise the id of the (only) track that has it. */
    function FindTrackByAudioId(audioId: string): (r: int)
      reads this
      requires Valid()
      ensures r == -1 <==> !HasAudioId(tracks, audioId)
      ensures forall i :: 0 <= i < |tracks| && tracks[i].audioId == audioId ==> tracks[i].id == r
    {
      LookupExact(tracks, audioId);
      Lookup(tracks, audioId)
    }

    /** `insertTrackStatment` as the store applies it: a new row with the next rowid, or,
        when the fingerprint is already stored, the UNIQUE constraint
        rejects it (`inserted` is false) and nothing changes. */
    method InsertTrack(e: TraktorXMLEntry) returns (inserted: bool)
      requires Valid()
      modifies this
      ensures Valid()
      ensures inserted <==> !HasAudioId(old(tracks), e.audioId)
      ensures State() == AfterInsertTrack(old(State()), e)
    {
      InsertTrackKeepsKeys(State(), e);
      if HasAudioId(tracks, e.audioId) {
        inserted := false;
      } else {
        tracks := tracks + [TrackRow(MaxId(tracks, TrackId) + 1, e)];
        inserted := true;
      }
    }

    /** `insertPlay`: one play row with the next rowid, referring to
        `trackId` whatever it is (the schema has no foreign key). */
    method InsertPlay(ec: TraktorXMLEntryCollection, e: TraktorXMLEntry, trackId: int)
      requires Valid()
      modifies this
      ensures Valid()
      ensures tracks == old(tracks)
      ensures plays == old(plays) + [PlayRow(MaxId(old(plays), PlayId) + 1, trackId, ec)]
    {
      plays := plays + [PlayRow(MaxId(plays, PlayId) + 1, trackId, ec)];
    }

    /** `insertEntry`: insert the track (a UNIQUE violation is swallowed),
        look its id up by fingerprint, record the play against that id. */
    method InsertEntry(ec: TraktorXMLEntryCollection, e: TraktorXMLEntry)
      requires Valid()
      modifies this
      ensures Valid()
      ensures State() == AfterInsertEntry(old(State()), ec, e)
      ensures |plays| == |old(plays)| + 1 && plays[..|old(plays)|] == old(plays)
      ensures HasAudioId(tracks, e.audioId)
      ensures plays[|plays| - 1].trackId == FindTrackByAudioId(e.audioId) != -1
    {
      InsertEntryRecordsOnePlay(State(), ec, e);
      var _ := InsertTrack(e);
      var trackId := FindTrackByAudioId(e.audioId);
      InsertPlay(ec, e, trackId);
    }

    /** `chartEntryFindBySql`: run the chart query and read every result
        row into a chart entry, in result order. */
    method ChartEntryFindBySql(q: Query) returns (entries: seq<ChartEntry>)
      requires Valid()
      ensures IsChart(State(), q, entries)
      ensures |entries| <= q.limit && ChartOrdered(entries)
      ensures q.limit > 0 ==> (entries == [] <==> !Charted(State(), q.window))
    {
      var rows := Execute(State(), q);
      entries := [];
      var i := 0;
      while i < |rows|
        invariant 0 <= i <= |rows| && |entries| == i
        invariant forall k :: 0 <= k < i ==> entries[k] == ChartEntryForRows(rows[k])
      {
        entries := entries + [ChartEntryForRows(rows[i])];
        i := i + 1;
      }
      assert Renders(rows, entries);
      ExecuteIsChart(State(), q, entries);
      ChartFacts(State(), q, entries);
    }

    /** `findChartEntriesByYear`: the yearly top 15. */
    method FindChartEntriesByYear(year: int) returns (entries: seq<ChartEntry>)
      requires Valid()
      ensures IsChart(State(), PlaysByYearStatement(year), entries)
      ensures |entries| <= 15 && ChartOrdered(entries)
      ensures entries == [] <==> !Charted(State(), Year(year))
    {
      entries := ChartEntryFindBySql(PlaysByYearStatement(year));
    }

    /** `findChartEntriesByMonthAndYear`: the monthly top 10. */
    method FindChartEntriesByMonthAndYear(month: int, year: int) returns (entries: seq<ChartEntry>)
      requires Valid()
      ensures IsChart(State(), PlaysByMonthAndYearStatement(month, year), entries)
      ensures |entries| <= 10 && ChartOrdered(entries)
      ensures entries == [] <==> !Charted(State(), YearMonth(year, month))
    {
      entries := ChartEntryFindBySql(PlaysByMonthAndYearStatement(month, year));
    }

    /** `getTraktorData`: both row counts, then the years 2020 down to 2011,
        keeping a year only when its chart is not empty, and within it the
        months 12 down to 1 (`MonthlySections`). */
    method GetTraktorData() returns (d: TraktorData)
      requires Valid()
      ensures IsReport(State(), d)
    {
      var playCount := CountForTable(PlaysTable);
      var trackCount := CountForTable(TracksTable);
      TrackCountIsFingerprintCount(tracks);
      ghost var s := State();
      var byYear: seq<TraktorDataByYear> := [];
      var year := 2020;
      while year > 2010
        invariant 2010 <= year <= 2020
        invariant YearsOf(byYear) == ActiveYears(s, 2020, year)
        invariant forall k :: 0 <= k < |byYear| ==> YearSectionOk(s, byYear[k])
      {
        var yearly := FindChartEntriesByYear(year);
        ActiveYearsStep(s, 2020, year - 1);
        if |yearly| > 0 {
          var byMonth := MonthlySections(year);
          YearsOfAppend(byYear, TraktorDataByYear(year, yearly, byMonth));
          byYear := byYear + [TraktorDataByYear(year, yearly, byMonth)];
        }
        year := year - 1;
      }
      d := TraktorData(playCount, trackCount, byYear);
    }

    /** The inner loop of `getTraktorData`: the months 12 down to 1 of
        `year`, keeping a month only when its chart is not empty. */
    method MonthlySections(year: int) returns (byMonth: seq<TraktorByYearAndMonth>)
      requires Valid()
      ensures MonthsOf(byMonth) == ActiveMonths(State(), year, 12, 0)
      ensures forall j :: 0 <= j < |byMonth| ==> MonthSectionOk(State(), year, byMonth[j])
    {
      ghost var s := State();
      byMonth := [];
      var month := 12;
      while month > 0
        invariant 0 <= month <= 12
        invariant MonthsOf(byMonth) == ActiveMonths(s, year, 12, month)
        invariant forall j :: 0 <= j < |byMonth| ==> MonthSectionOk(s, year, byMonth[j])
      {
        var monthly := FindChartEntriesByMonthAndYear(month, year);
        ActiveMonthsStep(s, year, 12, month - 1);
        if |monthly| > 0 {
          MonthsOfAppend(byMonth, TraktorByYearAndMonth(year, month, monthly));
          byMonth := byMonth + [TraktorByYearAndMonth(year, month, monthly)];
        }
        month := month - 1;
      }
    }
  }
}
