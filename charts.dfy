/** The chart queries: plays joined to tracks on `plays.track_id =
    tracks.id`, filtered by a year or a year and month, grouped by track,
    counted, ordered by count descending then artist ascending, and cut to
    a fixed number of rows. SQL fixes no order among rows that tie on both
    count and artist, so an answer is specified by a relation (`IsAnswer`)
    that any conforming engine satisfies; `Execute` is one such engine. */
module Charts {
  import opened Records
  import opened Collation
  import opened TrackTable

  /** The filter of a chart query. */
  datatype Window = Year(year: int) | YearMonth(year: int, month: int)

  /** What a chart statement asks for: its filter and its LIMIT. */
  datatype Query = Query(window: Window, limit: nat)

  /** `playsByYearStatement`: the yearly top 15. */
  function PlaysByYearStatement(year: int): Query {
    Query(Year(year), 15)
  }

  /** `playsByMonthAndYearStatement`: the monthly top 10. */
  function PlaysByMonthAndYearStatement(month: int, year: int): Query {
    Query(YearMonth(year, month), 10)
  }

  predicate Within(w: Window, year: int, month: int) {
    year == w.year && (w.YearMonth? ==> month == w.month)
  }

  predicate InWindow(p: Play, w: Window) {
    Within(w, p.year, p.month)
  }

  /** A play that the join and filter keep for the track with id `trackId`. */
  predicate CountsFor(p: Play, w: Window, trackId: int) {
    InWindow(p, w) && p.trackId == trackId
  }

  /** `count(plays.track_id)` for the group of one track id. */
  function PlayCount(plays: seq<Play>, w: Window, trackId: int): (n: nat)
    ensures n <= |plays|
    ensures n == 0 <==> forall i :: 0 <= i < |plays| ==> !CountsFor(plays[i], w, trackId)
  {
    if plays == [] then 0
    else
      var init := plays[..|plays| - 1];
      assert forall i :: 0 <= i < |init| ==> init[i] == plays[i];
      PlayCount(init, w, trackId) + (if CountsFor(plays[|plays| - 1], w, trackId) then 1 else 0)
  }

  /** Some play in the window refers to an existing track. */
  ghost predicate Charted(s: Tables, w: Window) {
    exists i, j :: 0 <= i < |s.plays| && 0 <= j < |s.tracks| && CountsFor(s.plays[i], w, s.tracks[j].id)
  }

  /** A row of the grouped result: a track and its play count. */
  datatype Row = Row(track: Track, total: int)

  /** The grouped relation before ORDER BY and LIMIT: one row per track
      that has at least one play in the window (table order, which carries
      no meaning). */
  function Groups(tracks: seq<Track>, plays: seq<Play>, w: Window): (g: seq<Row>)
    ensures forall x :: x in g <==> x.track in tracks && x.total == PlayCount(plays, w, x.track.id) && x.total >= 1
    ensures UniqueTrackIds(tracks) ==> NoDup(g)
  {
    if tracks == [] then []
    else
      var n := PlayCount(plays, w, tracks[0].id);
      var rest := Groups(tracks[1..], plays, w);
      assert forall t :: t in tracks <==> t == tracks[0] || t in tracks[1..];
      assert UniqueTrackIds(tracks) ==> tracks[0] !in tracks[1..] && UniqueTrackIds(tracks[1..]);
      (if n >= 1 then [Row(tracks[0], n)] else []) + rest
  }

  /** `ORDER BY total DESC, tracks.artist ASC`: `a` may come before `b`. */
  predicate RanksBefore(a: Row, b: Row) {
    a.total > b.total || (a.total == b.total && LexLeq(a.track.artist, b.track.artist))
  }

  predicate Sorted(rows: seq<Row>) {
    forall i, j :: 0 <= i < j < |rows| ==> RanksBefore(rows[i], rows[j])
  }

  predicate NoDup(rows: seq<Row>) {
    forall i, j :: 0 <= i < j < |rows| ==> rows[i] != rows[j]
  }

  function Min(a: int, b: int): int {
    if a <= b then a else b
  }

  /** `rows` is a correct answer to `q` over `s`: it holds min(LIMIT, number
      of groups) distinct groups, in chart order, and every group left out
      ranks no higher than every group kept. */
  ghost predicate IsAnswer(s: Tables, q: Query, rows: seq<Row>) {
    var g := Groups(s.tracks, s.plays, q.window);
    && |rows| == Min(q.limit, |g|)
    && (forall i :: 0 <= i < |rows| ==> rows[i] in g)
    && NoDup(rows)
    && Sorted(rows)
    && (forall x :: x in g && x !in rows ==> forall i :: 0 <= i < |rows| ==> RanksBefore(rows[i], x))
  }

  lemma RanksBeforeTotal(a: Row, b: Row)
    ensures RanksBefore(a, b) || RanksBefore(b, a)
  {
    LexLeqTotal(a.track.artist, b.track.artist);
  }

  lemma RanksBeforeTransitive(a: Row, b: Row, c: Row)
    requires RanksBefore(a, b) && RanksBefore(b, c)
    ensures RanksBefore(a, c)
  {
    if a.total == b.total == c.total {
      LexLeqTransitive(a.track.artist, b.track.artist, c.track.artist);
    }
  }

  lemma SortedCons(h: Row, t: seq<Row>)
    requires Sorted(t)
    requires forall i :: 0 <= i < |t| ==> RanksBefore(h, t[i])
    ensures Sorted([h] + t)
  {
    var r := [h] + t;
    forall i, j | 0 <= i < j < |r| ensures RanksBefore(r[i], r[j]) {
      if i > 0 {
        assert r[i] == t[i - 1] && r[j] == t[j - 1];
      }
    }
  }

  /** Insertion of one row into a sorted sequence, before the first row it
      may precede. */
  function Insert(x: Row, s: seq<Row>): (r: seq<Row>)
    ensures multiset(r) == multiset(s) + multiset{x}
  {
    if s == [] then [x]
    else if RanksBefore(x, s[0]) then [x] + s
    else
      assert s == [s[0]] + s[1..];
      [s[0]] + Insert(x, s[1..])
  }

  lemma InsertMembers(x: Row, s: seq<Row>)
    ensures forall y :: y in Insert(x, s) <==> y == x || y in s
  {
    var r := Insert(x, s);
    forall y ensures y in r <==> y == x || y in s {
      assert y in r <==> y in multiset(r);
      assert y in s <==> y in multiset(s);
    }
  }

  lemma {:induction false} InsertSorted(x: Row, s: seq<Row>)
    requires Sorted(s)
    ensures Sorted(Insert(x, s))
  {
    if s == [] {
    } else if RanksBefore(x, s[0]) {
      forall i | 0 <= i < |s| ensures RanksBefore(x, s[i]) {
        if i > 0 { RanksBeforeTransitive(x, s[0], s[i]); }
      }
      SortedCons(x, s);
    } else {
      var t := Insert(x, s[1..]);
      InsertSorted(x, s[1..]);
      InsertMembers(x, s[1..]);
      RanksBeforeTotal(x, s[0]);
      forall i | 0 <= i < |t| ensures RanksBefore(s[0], t[i]) {
        if t[i] != x {
          assert t[i] in t;
          assert t[i] in s[1..];
          var k :| 0 <= k < |s[1..]| && s[1..][k] == t[i];
          assert s[k + 1] == t[i];
        }
      }
      SortedCons(s[0], t);
    }
  }

  lemma {:induction false} InsertNoDup(x: Row, s: seq<Row>)
    requires NoDup(s) && x !in s
    ensures NoDup(Insert(x, s))
  {
    if s != [] && !RanksBefore(x, s[0]) {
      var t := Insert(x, s[1..]);
      assert x !in s[1..];
      InsertNoDup(x, s[1..]);
      InsertMembers(x, s[1..]);
      assert s[0] !in s[1..];
      var r := [s[0]] + t;
      forall i, j | 0 <= i < j < |r| ensures r[i] != r[j] {
        if i > 0 {
          assert r[i] == t[i - 1] && r[j] == t[j - 1];
        } else {
          assert r[j] in t;
        }
      }
    }
  }

  /** ORDER BY, as a stable insertion sort. */
  function SortRows(s: seq<Row>): (r: seq<Row>)
    ensures multiset(r) == multiset(s)
    ensures Sorted(r)
    ensures NoDup(s) ==> NoDup(r)
  {
    if s == [] then []
    else
      assert s == [s[0]] + s[1..];
      var t := SortRows(s[1..]);
      assert NoDup(s) ==> s[0] !in s[1..] && NoDup(s[1..]);
      assert s[0] in t <==> s[0] in multiset(t);
      InsertSorted(s[0], t);
      if NoDup(s) then InsertNoDup(s[0], t); Insert(s[0], t) else Insert(s[0], t)
  }

  /** One evaluation of a chart query: group, order, keep the first LIMIT. */
  function Execute(s: Tables, q: Query): seq<Row> {
    var sorted := SortRows(Groups(s.tracks, s.plays, q.window));
    sorted[..Min(q.limit, |sorted|)]
  }

  /** The engine's answer is a correct answer whenever track ids are unique. */
  lemma ExecuteIsAnswer(s: Tables, q: Query)
    requires UniqueTrackIds(s.tracks)
    ensures IsAnswer(s, q, Execute(s, q))
  {
    var g := Groups(s.tracks, s.plays, q.window);
    var sorted := SortRows(g);
    var n := Min(q.limit, |sorted|);
    var rows := sorted[..n];
    assert rows == Execute(s, q);
    assert |sorted| == |g| by {
      assert |multiset(sorted)| == |multiset(g)|;
    }
    assert NoDup(rows) by {
      assert NoDup(sorted);
    }
    assert Sorted(rows) by {
      assert Sorted(sorted);
    }
    forall i | 0 <= i < |rows| ensures rows[i] in g {
      assert rows[i] == sorted[i];
      assert sorted[i] in multiset(sorted);
    }
    forall x | x in g && x !in rows ensures forall i :: 0 <= i < |rows| ==> RanksBefore(rows[i], x) {
      assert x in multiset(sorted);
      var j :| 0 <= j < |sorted| && sorted[j] == x;
      assert j >= n;
      forall i | 0 <= i < |rows| ensures RanksBefore(rows[i], x) {
        assert rows[i] == sorted[i];
      }
    }
  }

  /** `chartEntryForRows`: a result row as a chart entry. */
  function ChartEntryForRows(row: Row): ChartEntry {
    ChartEntry(row.track.bpm, row.total, row.track.key, row.track.name, row.track.genre,
               row.track.length, row.track.artist)
  }

  predicate Renders(rows: seq<Row>, entries: seq<ChartEntry>) {
    |entries| == |rows| && forall i :: 0 <= i < |rows| ==> entries[i] == ChartEntryForRows(rows[i])
  }

  /** `entries` is what the application reads off some correct answer. */
  ghost predicate IsChart(s: Tables, q: Query, entries: seq<ChartEntry>) {
    exists rows :: IsAnswer(s, q, rows) && Renders(rows, entries)
  }

  /** Reading the engine's rows gives a chart. */
  lemma ExecuteIsChart(s: Tables, q: Query, entries: seq<ChartEntry>)
    requires UniqueTrackIds(s.tracks) && Renders(Execute(s, q), entries)
    ensures IsChart(s, q, entries)
  {
    ExecuteIsAnswer(s, q);
  }

  /** Entries by count descending, equal counts by artist ascending. */
  predicate ChartOrdered(entries: seq<ChartEntry>) {
    forall i, j :: 0 <= i < j < |entries| ==>
      entries[i].count > entries[j].count
      || (entries[i].count == entries[j].count && LexLeq(entries[i].artist, entries[j].artist))
  }

  /** Some track has a play in the window exactly when the groups are not empty. */
  lemma GroupsNonEmpty(s: Tables, w: Window)
    ensures Groups(s.tracks, s.plays, w) != [] <==> Charted(s, w)
  {
    var g := Groups(s.tracks, s.plays, w);
    if g != [] {
      assert g[0] in g;
      var j :| 0 <= j < |s.tracks| && s.tracks[j] == g[0].track;
      var i :| 0 <= i < |s.plays| && CountsFor(s.plays[i], w, s.tracks[j].id);
    }
    if Charted(s, w) {
      var i, j :| 0 <= i < |s.plays| && 0 <= j < |s.tracks| && CountsFor(s.plays[i], w, s.tracks[j].id);
      var t := s.tracks[j];
      assert Row(t, PlayCount(s.plays, w, t.id)) in g;
    }
  }

  /** What a chart promises its reader: at most LIMIT entries, in chart
      order, each an existing track with its number of plays in the window
      (so at least one, and plays of unknown tracks count for nothing), and
      empty exactly when no play in the window refers to a track. */
  lemma ChartFacts(s: Tables, q: Query, entries: seq<ChartEntry>)
    requires IsChart(s, q, entries)
    ensures |entries| <= q.limit
    ensures ChartOrdered(entries)
    ensures forall i :: 0 <= i < |entries| ==>
      exists t :: t in s.tracks && entries[i] == ChartEntryForRows(Row(t, PlayCount(s.plays, q.window, t.id)))
    ensures forall i :: 0 <= i < |entries| ==> entries[i].count >= 1
    ensures q.limit > 0 ==> (entries == [] <==> !Charted(s, q.window))
  {
    var rows :| IsAnswer(s, q, rows) && Renders(rows, entries);
    var g := Groups(s.tracks, s.plays, q.window);
    forall i | 0 <= i < |entries|
      ensures exists t :: t in s.tracks && entries[i] == ChartEntryForRows(Row(t, PlayCount(s.plays, q.window, t.id)))
    {
      assert rows[i] in g;
    }
    forall i | 0 <= i < |entries| ensures entries[i].count >= 1 {
      assert rows[i] in g;
    }
    forall i, j | 0 <= i < j < |entries|
      ensures entries[i].count > entries[j].count
        || (entries[i].count == entries[j].count && LexLeq(entries[i].artist, entries[j].artist))
    {
      assert RanksBefore(rows[i], rows[j]);
    }
    GroupsNonEmpty(s, q.window);
  }
}

module ChartLaws {
  import opened Records
  import opened Collation
  import opened TrackTable
  import opened Charts

  lemma PlayCountAppend(plays: seq<Play>, p: Play, w: Window, trackId: int)
    ensures PlayCount(plays + [p], w, trackId) == PlayCount(plays, w, trackId) + (if CountsFor(p, w, trackId) then 1 else 0)
  {
    assert (plays + [p])[..|plays|] == plays;
  }

  /** The store after importing the same log entry `n` times. */
  function RepeatEntry(s: Tables, ec: TraktorXMLEntryCollection, e: TraktorXMLEntry, n: nat): Tables
    decreases n
  {
    if n == 0 then s else RepeatEntry(AfterInsertEntry(s, ec, e), ec, e, n - 1)
  }

  /** One import adds one play for the track the fingerprint resolves to. */
  lemma EntryAddsOnePlay(s: Tables, ec: TraktorXMLEntryCollection, e: TraktorXMLEntry, w: Window, trackId: int)
    requires Within(w, ec.year, ec.month)
    requires trackId == Lookup(AfterInsertTrack(s, e).tracks, e.audioId)
    ensures PlayCount(AfterInsertEntry(s, ec, e).plays, w, trackId) == PlayCount(s.plays, w, trackId) + 1
    ensures forall other :: other != trackId ==>
      PlayCount(AfterInsertEntry(s, ec, e).plays, w, other) == PlayCount(s.plays, w, other)
  {
    var s1 := AfterInsertTrack(s, e);
    var p := PlayRow(MaxId(s1.plays, PlayId) + 1, trackId, ec);
    assert AfterInsertEntry(s, ec, e).plays == s.plays + [p];
    forall other {
      PlayCountAppend(s.plays, p, w, other);
    }
  }

  /** A second import of an entry finds its fingerprint and adds no track. */
  lemma ImportAgainKeepsTracks(s: Tables, ec: TraktorXMLEntryCollection, e: TraktorXMLEntry)
    ensures AfterInsertTrack(AfterInsertEntry(s, ec, e), e).tracks == AfterInsertTrack(s, e).tracks
    ensures EntryTrackId(AfterInsertEntry(s, ec, e), e) == EntryTrackId(s, e)
  {
    InsertTrackRegisters(s, e);
    assert AfterInsertEntry(s, ec, e).tracks == AfterInsertTrack(s, e).tracks;
  }

  /** Only the first of repeated imports of one entry can add a track row. */
  lemma {:induction false} RepeatedEntryTracks(s: Tables, ec: TraktorXMLEntryCollection, e: TraktorXMLEntry, n: nat)
    decreases n
    ensures RepeatEntry(s, ec, e, n).tracks == if n == 0 then s.tracks else AfterInsertTrack(s, e).tracks
  {
    if n > 0 {
      var s' := AfterInsertEntry(s, ec, e);
      RepeatedEntryTracks(s', ec, e, n - 1);
      ImportAgainKeepsTracks(s, ec, e);
      InsertTrackRegisters(s, e);
      assert s'.tracks == AfterInsertTrack(s, e).tracks;
      assert AfterInsertTrack(s', e) == s';
    }
  }

  /** The id the play of an import of `e` into `s` is recorded against. */
  function EntryTrackId(s: Tables, e: TraktorXMLEntry): int {
    Lookup(AfterInsertTrack(s, e).tracks, e.audioId)
  }

  /** Importing one entry `n` times adds exactly `n` to the count of the
      track its fingerprint resolves to, in every window containing its
      time. */
  lemma {:induction false} RepeatedEntryCounts(s: Tables, ec: TraktorXMLEntryCollection, e: TraktorXMLEntry, n: nat, w: Window)
    decreases n
    requires Within(w, ec.year, ec.month)
    ensures PlayCount(RepeatEntry(s, ec, e, n).plays, w, EntryTrackId(s, e)) == PlayCount(s.plays, w, EntryTrackId(s, e)) + n
  {
    if n > 0 {
      var s' := AfterInsertEntry(s, ec, e);
      RepeatedEntryCounts(s', ec, e, n - 1, w);
      ImportAgainKeepsTracks(s, ec, e);
      EntryAddsOnePlay(s, ec, e, w, EntryTrackId(s, e));
    }
  }

  /** ... and leaves the count of every other track id unchanged. */
  lemma {:induction false} RepeatedEntryLeavesOthers(s: Tables, ec: TraktorXMLEntryCollection, e: TraktorXMLEntry, n: nat, w: Window, other: int)
    decreases n
    requires Within(w, ec.year, ec.month) && other != EntryTrackId(s, e)
    ensures PlayCount(RepeatEntry(s, ec, e, n).plays, w, other) == PlayCount(s.plays, w, other)
  {
    if n > 0 {
      var s' := AfterInsertEntry(s, ec, e);
      ImportAgainKeepsTracks(s, ec, e);
      RepeatedEntryLeavesOthers(s', ec, e, n - 1, w, other);
      EntryAddsOnePlay(s, ec, e, w, EntryTrackId(s, e));
    }
  }

  const ZedEntry := TraktorXMLEntry("Zed", "Night", "House", 124, "8A", 300, "a1")
  const AbelEntry := TraktorXMLEntry("Abel", "Day", "Techno", 130, "5B", 280, "b1")
  const March2015 := TraktorXMLEntryCollection(2015, 3, 14, 22, 5)

  lemma GroupsOfTwo(t1: Track, t2: Track, plays: seq<Play>, w: Window)
    requires PlayCount(plays, w, t1.id) >= 1 && PlayCount(plays, w, t2.id) >= 1
    ensures Groups([t1, t2], plays, w) == [Row(t1, PlayCount(plays, w, t1.id)), Row(t2, PlayCount(plays, w, t2.id))]
  {
    var ts := [t1, t2];
    assert ts[1..] == [t2] && [t2][1..] == [];
    assert Groups([t2][1..], plays, w) == [];
    assert Groups([t2], plays, w) == [Row(t2, PlayCount(plays, w, t2.id))] + Groups([t2][1..], plays, w);
    assert Groups(ts, plays, w) == [Row(t1, PlayCount(plays, w, t1.id))] + Groups(ts[1..], plays, w);
  }

  /** The store of the tie-break scenario: into an empty store, import a
      track by "Zed" (fingerprint a1) three times and then one by "Abel"
      (fingerprint b1) three times, all played in March 2015. */
  function TieScenario(s0: Tables): Tables {
    RepeatEntry(RepeatEntry(s0, March2015, ZedEntry, 3), March2015, AbelEntry, 3)
  }

  /** After the three imports of Zed's track: one row, id 1, three plays. */
  lemma ZedStage(s0: Tables)
    requires s0 == Tables([], [])
    ensures RepeatEntry(s0, March2015, ZedEntry, 3).tracks == [TrackRow(1, ZedEntry)]
    ensures PlayCount(RepeatEntry(s0, March2015, ZedEntry, 3).plays, YearMonth(2015, 3), 1) == 3
    ensures PlayCount(RepeatEntry(s0, March2015, ZedEntry, 3).plays, YearMonth(2015, 3), 2) == 0
  {
    var w := YearMonth(2015, 3);
    assert AfterInsertTrack(s0, ZedEntry).tracks == [TrackRow(1, ZedEntry)];
    RepeatedEntryTracks(s0, March2015, ZedEntry, 3);
    RepeatedEntryCounts(s0, March2015, ZedEntry, 3, w);
    RepeatedEntryLeavesOthers(s0, March2015, ZedEntry, 3, w, 2);
  }

  /** Then the three imports of Abel's track: a second row, id 2, three plays. */
  lemma AbelStage(s1: Tables)
    requires s1.tracks == [TrackRow(1, ZedEntry)]
    requires PlayCount(s1.plays, YearMonth(2015, 3), 1) == 3 && PlayCount(s1.plays, YearMonth(2015, 3), 2) == 0
    ensures RepeatEntry(s1, March2015, AbelEntry, 3).tracks == [TrackRow(1, ZedEntry), TrackRow(2, AbelEntry)]
    ensures PlayCount(RepeatEntry(s1, March2015, AbelEntry, 3).plays, YearMonth(2015, 3), 1) == 3
    ensures PlayCount(RepeatEntry(s1, March2015, AbelEntry, 3).plays, YearMonth(2015, 3), 2) == 3
  {
    var w := YearMonth(2015, 3);
    var tz := TrackRow(1, ZedEntry);
    assert !HasAudioId([tz], "b1");
    assert MaxId([tz], TrackId) == 1;
    assert AfterInsertTrack(s1, AbelEntry).tracks == [tz, TrackRow(2, AbelEntry)];
    assert Lookup([tz, TrackRow(2, AbelEntry)], "b1") == 2;
    RepeatedEntryTracks(s1, March2015, AbelEntry, 3);
    RepeatedEntryCounts(s1, March2015, AbelEntry, 3, w);
    RepeatedEntryLeavesOthers(s1, March2015, AbelEntry, 3, w, 1);
  }

  /** Both tracks of the scenario have three plays, so the March 2015
      chart has exactly one correct answer, and it lists Abel's track before
      Zed's. */
  lemma TieBreakScenario(s0: Tables)
    requires s0 == Tables([], [])
    ensures IsAnswer(TieScenario(s0), PlaysByMonthAndYearStatement(3, 2015),
                     [Row(TrackRow(2, AbelEntry), 3), Row(TrackRow(1, ZedEntry), 3)])
    ensures forall rows :: IsAnswer(TieScenario(s0), PlaysByMonthAndYearStatement(3, 2015), rows) ==>
      rows == [Row(TrackRow(2, AbelEntry), 3), Row(TrackRow(1, ZedEntry), 3)]
  {
    var s := TieScenario(s0);
    var q := PlaysByMonthAndYearStatement(3, 2015);
    var w := YearMonth(2015, 3);
    var tz, ta := TrackRow(1, ZedEntry), TrackRow(2, AbelEntry);
    var rz, ra := Row(tz, 3), Row(ta, 3);
    ZedStage(s0);
    AbelStage(RepeatEntry(s0, March2015, ZedEntry, 3));
    var g := Groups(s.tracks, s.plays, w);
    assert g == [rz, ra] by {
      GroupsOfTwo(tz, ta, s.plays, w);
    }
    assert !RanksBefore(rz, ra) by {
      assert !LexLeq("Zed", "Abel");
    }
    forall rows | IsAnswer(s, q, rows) ensures rows == [ra, rz] {
      OnlyOneOrderOfTwo(g, rows, rz, ra);
    }
    assert RanksBefore(ra, rz) by {
      assert LexLeq("Abel", "Zed");
    }
    AnswerOfTwo(s, q, rz, ra);
  }

  /** With exactly two distinct groups and room for both, listing them in
      ranking order is a correct answer. */
  lemma AnswerOfTwo(s: Tables, q: Query, a: Row, b: Row)
    requires Groups(s.tracks, s.plays, q.window) == [a, b]
    requires q.limit >= 2 && a != b && RanksBefore(b, a)
    ensures IsAnswer(s, q, [b, a])
  {
    var g := Groups(s.tracks, s.plays, q.window);
    assert forall x :: x in g ==> x in [b, a];
  }

  /** With exactly two groups, a correct answer must put them in the one
      order the ranking allows. */
  lemma OnlyOneOrderOfTwo(g: seq<Row>, rows: seq<Row>, a: Row, b: Row)
    requires g == [a, b] && !RanksBefore(a, b)
    requires |rows| == 2 && NoDup(rows) && Sorted(rows)
    requires forall i :: 0 <= i < |rows| ==> rows[i] in g
    ensures rows == [b, a]
  {
    assert rows[0] in g && rows[1] in g && rows[0] != rows[1];
    assert RanksBefore(rows[0], rows[1]);
  }
}
