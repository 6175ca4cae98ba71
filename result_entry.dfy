/**
  The single-modality match the audio/video entry is built from: one matched
  track, the coverage of the match and the time it was matched at. Only the
  fields that the audio/video entry reads or copies are kept.
*/
module ResultEntries {

  /** `DateTime.MaxValue.Ticks`: a `DateTime` holds a tick count in [0, MaxTicks]. */
  const MaxTicks: int := 3155378975999999999

  /** A `DateTime`, represented by its tick count. */
  type Ticks = t: int | 0 <= t <= MaxTicks

  /** Kind of media a track was fingerprinted from. */
  datatype MediaType = Audio | Video | AudioVideo

  /** The stored track a result entry points to. */
  datatype TrackData = TrackData(
    id: string,
    title: string,
    artist: string,
    metaFields: map<string, string>,
    mediaType: MediaType)

  /**
    Alignment between query and track timelines. The audio/video entry never
    looks inside it, it only hands it on, so it is kept as an opaque record;
    its field names are illustrative.
  */
  datatype Coverage = Coverage(
    trackMatchStartsAt: real,
    trackCoverageWithPermittedGapsLength: real,
    queryLength: real)

  /** One matched track for one modality. */
  datatype ResultEntry = ResultEntry(track: TrackData, coverage: Coverage, matchedAt: Ticks)
}
