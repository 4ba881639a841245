/** What the store's write statements and the fingerprint lookup mean, as
    functions of the two tables: `INSERT INTO tracks` under the UNIQUE
    constraint on `audio_id`, `INSERT INTO plays`, `SELECT id FROM tracks
    WHERE audio_id = ?`, and the upsert-then-lookup-then-record sequence of
    `insertEntry`. Row ids follow SQLite's rowid rule for a table without
    deletions: one more than the largest id present, 1 in an empty table. */
module TrackTable {
  import opened Records

  predicate UniqueTrackIds(tracks: seq<Track>) {
    forall i, j :: 0 <= i < j < |tracks| ==> tracks[i].id != tracks[j].id
  }

  predicate UniqueAudioIds(tracks: seq<Track>) {
    forall i, j :: 0 <= i < j < |tracks| ==> tracks[i].audioId != tracks[j].audioId
  }

  predicate UniquePlayIds(plays: seq<Play>) {
    forall i, j :: 0 <= i < j < |plays| ==> plays[i].id != plays[j].id
  }

  /** The schema's constraints: primary keys are positive and distinct, and
      no two tracks share an audio fingerprint. */
  predicate WellFormed(s: Tables) {
    && UniqueTrackIds(s.tracks)
    && UniqueAudioIds(s.tracks)
    && UniquePlayIds(s.plays)
    && (forall i :: 0 <= i < |s.tracks| ==> s.tracks[i].id >= 1)
    && (forall i :: 0 <= i < |s.plays| ==> s.plays[i].id >= 1)
  }

  /** The largest of the rows' ids, 0 for no rows: SQLite gives a new row
      the rowid one above it. */
  function MaxId<T>(rows: seq<T>, id: T -> int): (m: nat)
    ensures forall i :: 0 <= i < |rows| ==> id(rows[i]) <= m
  {
    if rows == [] then 0
    else
      var m := MaxId(rows[1..], id);
      assert forall i :: 1 <= i < |rows| ==> rows[i] == rows[1..][i - 1];
      if id(rows[0]) > m then id(rows[0]) else m
  }

  function TrackId(t: Track): int {
    t.id
  }

  function PlayId(p: Play): int {
    p.id
  }

  predicate HasAudioId(tracks: seq<Track>, audioId: string) {
    exists i :: 0 <= i < |tracks| && tracks[i].audioId == audioId
  }

  /** `SELECT id FROM tracks WHERE audio_id = ?`: the id of the first row
      with that fingerprint, or the sentinel -1 when there is none. */
  function Lookup(tracks: seq<Track>, audioId: string): (r: int)
    ensures !HasAudioId(tracks, audioId) ==> r == -1
    ensures HasAudioId(tracks, audioId) ==>
      exists i :: 0 <= i < |tracks| && tracks[i].audioId == audioId && tracks[i].id == r
  {
    if tracks == [] then -1
    else if tracks[0].audioId == audioId then tracks[0].id
    else
      assert forall i :: 1 <= i < |tracks| ==> tracks[i] == tracks[1..][i - 1];
      assert HasAudioId(tracks, audioId) ==> HasAudioId(tracks[1..], audioId);
      Lookup(tracks[1..], audioId)
  }

  function TrackRow(id: int, e: TraktorXMLEntry): Track {
    Track(id, e.bpm, e.key, e.title, e.genre, e.artist, e.length, e.audioId)
  }

  function PlayRow(id: int, trackId: int, ec: TraktorXMLEntryCollection): Play {
    Play(id, trackId, ec.year, ec.month, ec.day, ec.hour, ec.minute)
  }

  /** `INSERT INTO tracks`: a new row with a fresh id, unless a row with the
      same fingerprint exists, in which case the UNIQUE constraint rejects
      the statement and nothing changes. */
  function AfterInsertTrack(s: Tables, e: TraktorXMLEntry): Tables {
    if HasAudioId(s.tracks, e.audioId) then s
    else Tables(s.tracks + [TrackRow(MaxId(s.tracks, TrackId) + 1, e)], s.plays)
  }

  /** `INSERT INTO plays`: one new row, time components copied unchecked. */
  function AfterInsertPlay(s: Tables, ec: TraktorXMLEntryCollection, trackId: int): Tables {
    Tables(s.tracks, s.plays + [PlayRow(MaxId(s.plays, PlayId) + 1, trackId, ec)])
  }

  /** `insertEntry`: try to insert the track, look its id up by fingerprint,
      record the play against that id. */
  function AfterInsertEntry(s: Tables, ec: TraktorXMLEntryCollection, e: TraktorXMLEntry): Tables {
    var s1 := AfterInsertTrack(s, e);
    AfterInsertPlay(s1, ec, Lookup(s1.tracks, e.audioId))
  }

  /** In a well-formed store the lookup is exact: -1 exactly when the
      fingerprint is absent, otherwise the id of the one row that has it. */
  lemma LookupExact(tracks: seq<Track>, audioId: string)
    requires WellFormed(Tables(tracks, []))
    ensures Lookup(tracks, audioId) == -1 <==> !HasAudioId(tracks, audioId)
    ensures forall i :: 0 <= i < |tracks| && tracks[i].audioId == audioId ==> tracks[i].id == Lookup(tracks, audioId)
  {
  }

  /** The track insert keeps both keys unique; an existing fingerprint
      keeps its row (first-seen metadata wins), a new one gets exactly one
      row with an id above all others. */
  lemma InsertTrackKeepsKeys(s: Tables, e: TraktorXMLEntry)
    requires WellFormed(s)
    ensures var r := AfterInsertTrack(s, e);
      && WellFormed(r)
      && r.plays == s.plays
      && (HasAudioId(s.tracks, e.audioId) ==> r.tracks == s.tracks)
      && (!HasAudioId(s.tracks, e.audioId) ==>
            |r.tracks| == |s.tracks| + 1 && r.tracks[..|s.tracks|] == s.tracks
            && r.tracks[|s.tracks|] == TrackRow(r.tracks[|s.tracks|].id, e)
            && forall i :: 0 <= i < |s.tracks| ==> s.tracks[i].id < r.tracks[|s.tracks|].id)
  {
    var r := AfterInsertTrack(s, e);
    if !HasAudioId(s.tracks, e.audioId) {
      assert r.tracks[|s.tracks|].audioId == e.audioId;
    }
  }

  /** After the track insert the fingerprint is always stored, whether the
      row was added or the UNIQUE constraint rejected it. */
  lemma InsertTrackRegisters(s: Tables, e: TraktorXMLEntry)
    ensures HasAudioId(AfterInsertTrack(s, e).tracks, e.audioId)
  {
    var r := AfterInsertTrack(s, e);
    if !HasAudioId(s.tracks, e.audioId) {
      assert r.tracks[|s.tracks|].audioId == e.audioId;
    }
  }

  /** `insertEntry` keeps the schema's constraints, appends exactly one play
      and leaves every earlier play as it was; the new play points at the
      row holding the entry's fingerprint (never at the sentinel -1) and
      carries the entry's time unchanged. */
  lemma InsertEntryRecordsOnePlay(s: Tables, ec: TraktorXMLEntryCollection, e: TraktorXMLEntry)
    requires WellFormed(s)
    ensures var r := AfterInsertEntry(s, ec, e);
      && WellFormed(r)
      && r.tracks == AfterInsertTrack(s, e).tracks
      && |r.plays| == |s.plays| + 1 && r.plays[..|s.plays|] == s.plays
      && var p := r.plays[|s.plays|];
         && p.trackId != -1
         && (exists i :: 0 <= i < |r.tracks| && r.tracks[i].audioId == e.audioId && r.tracks[i].id == p.trackId)
         && (p.year, p.month, p.day, p.hour, p.minute) == (ec.year, ec.month, ec.day, ec.hour, ec.minute)
  {
    InsertTrackKeepsKeys(s, e);
    InsertTrackRegisters(s, e);
    var s1 := AfterInsertTrack(s, e);
    LookupExact(s1.tracks, e.audioId);
    InsertPlayKeepsKeys(s1, ec, Lookup(s1.tracks, e.audioId));
  }

  /** The play insert keeps the schema's constraints and appends one row. */
  lemma InsertPlayKeepsKeys(s: Tables, ec: TraktorXMLEntryCollection, trackId: int)
    requires WellFormed(s)
    ensures WellFormed(AfterInsertPlay(s, ec, trackId))
  {
    var r := AfterInsertPlay(s, ec, trackId);
    assert r.plays[|s.plays|].id == MaxId(s.plays, PlayId) + 1;
    assert forall i :: 0 <= i < |s.plays| ==> r.plays[i] == s.plays[i];
  }

  /** Two entries with the same fingerprint, the first one new: one track
      row results, holding the FIRST entry's metadata, and both plays point
      at it. */
  lemma FirstSeenMetadataWins(s: Tables, ec1: TraktorXMLEntryCollection, e1: TraktorXMLEntry,
                              ec2: TraktorXMLEntryCollection, e2: TraktorXMLEntry)
    requires WellFormed(s)
    requires e1.audioId == e2.audioId && !HasAudioId(s.tracks, e1.audioId)
    ensures var r := AfterInsertEntry(AfterInsertEntry(s, ec1, e1), ec2, e2);
      && |r.tracks| == |s.tracks| + 1
      && r.tracks[..|s.tracks|] == s.tracks
      && r.tracks[|s.tracks|] == TrackRow(r.tracks[|s.tracks|].id, e1)
      && |r.plays| == |s.plays| + 2
      && r.plays[|s.plays|].trackId == r.plays[|s.plays| + 1].trackId == r.tracks[|s.tracks|].id
  {
    var r1 := AfterInsertEntry(s, ec1, e1);
    InsertEntryRecordsOnePlay(s, ec1, e1);
    InsertTrackKeepsKeys(s, e1);
    InsertEntryRecordsOnePlay(r1, ec2, e2);
    InsertTrackKeepsKeys(r1, e2);
    var r := AfterInsertEntry(r1, ec2, e2);
    LookupExact(r.tracks, e1.audioId);
    assert r.tracks[|s.tracks|].audioId == e1.audioId;
  }

  /** Every play refers to a stored track. The schema does not enforce
      this (there is no foreign key), but `insertEntry` keeps it. */
  predicate PlaysReferToTracks(s: Tables) {
    forall i :: 0 <= i < |s.plays| ==> exists j :: 0 <= j < |s.tracks| && s.tracks[j].id == s.plays[i].trackId
  }

  lemma InsertEntryKeepsReferences(s: Tables, ec: TraktorXMLEntryCollection, e: TraktorXMLEntry)
    requires WellFormed(s) && PlaysReferToTracks(s)
    ensures PlaysReferToTracks(AfterInsertEntry(s, ec, e))
  {
    InsertEntryRecordsOnePlay(s, ec, e);
    InsertTrackKeepsKeys(s, e);
    var r := AfterInsertEntry(s, ec, e);
    forall i | 0 <= i < |r.plays|
      ensures exists j :: 0 <= j < |r.tracks| && r.tracks[j].id == r.plays[i].trackId
    {
      if i < |s.plays| {
        assert r.plays[i] == s.plays[i];
        var j :| 0 <= j < |s.tracks| && s.tracks[j].id == s.plays[i].trackId;
        assert r.tracks[j] == s.tracks[j];
      }
    }
  }

  /** The distinct fingerprints in the table. */
  function Fingerprints(tracks: seq<Track>): set<string> {
    if tracks == [] then {} else {tracks[0].audioId} + Fingerprints(tracks[1..])
  }

  /** With the UNIQUE constraint, counting the rows of `tracks` counts the
      distinct fingerprints ever inserted. */
  lemma {:induction false} TrackCountIsFingerprintCount(tracks: seq<Track>)
    requires UniqueAudioIds(tracks)
    ensures |Fingerprints(tracks)| == |tracks|
  {
    if tracks != [] {
      TrackCountIsFingerprintCount(tracks[1..]);
      FingerprintsMembers(tracks[1..]);
      assert tracks[0].audioId !in Fingerprints(tracks[1..]);
    }
  }

  lemma {:induction false} FingerprintsMembers(tracks: seq<Track>)
    ensures forall a :: a in Fingerprints(tracks) <==> HasAudioId(tracks, a)
  {
    if tracks != [] {
      FingerprintsMembers(tracks[1..]);
      assert forall i :: 1 <= i < |tracks| ==> tracks[i] == tracks[1..][i - 1];
      forall a | HasAudioId(tracks, a) ensures a in Fingerprints(tracks) {
        var i :| 0 <= i < |tracks| && tracks[i].audioId == a;
        if i > 0 {
          assert tracks[1..][i - 1].audioId == a;
        }
      }
    }
  }
}
