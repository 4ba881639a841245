/** The rows of the two tables of the play-history store, the records the
    upstream log parser hands to the store, and the nested report that the
    rollup builds from charts. */
module Records {
  /** A row of the `tracks` table; `id` is the INTEGER PRIMARY KEY and
      `audioId`, the audio fingerprint, is declared UNIQUE. */
  datatype Track = Track(
    id: int, bpm: int, key: string, name: string, genre: string,
    artist: string, length: int, audioId: string)

  /** A row of the `plays` table: a reference to a track and the time of the
      play as separate components, stored exactly as given. */
  datatype Play = Play(
    id: int, trackId: int, year: int, month: int, day: int, hour: int, minute: int)

  /** The whole persisted store: both tables, rows in insertion order. */
  datatype Tables = Tables(tracks: seq<Track>, plays: seq<Play>)

  /** One ranked line of a chart: a track's metadata and its play count in the window. */
  datatype ChartEntry = ChartEntry(
    bpm: int, count: int, key: string, title: string, genre: string,
    length: int, artist: string)

  /** The track part of one parsed log entry (its accessors read as plain fields). */
  datatype TraktorXMLEntry = TraktorXMLEntry(
    artist: string, title: string, genre: string, bpm: int, key: string,
    length: int, audioId: string)

  /** The time part of one parsed log entry. */
  datatype TraktorXMLEntryCollection = TraktorXMLEntryCollection(
    year: int, month: int, day: int, hour: int, minute: int)

  /** The report: table totals, then one section per charted year. */
  datatype TraktorByYearAndMonth = TraktorByYearAndMonth(year: int, month: int, charts: seq<ChartEntry>)
  datatype TraktorDataByYear = TraktorDataByYear(
    year: int, charts: seq<ChartEntry>, byMonth: seq<TraktorByYearAndMonth>)
  datatype TraktorData = TraktorData(plays: int, tracks: int, byYear: seq<TraktorDataByYear>)
}
