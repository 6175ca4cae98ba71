/**
  The audio/video result entry: an optional audio match paired with an optional
  video match, never both absent. It answers which track was matched and when,
  and converts itself into the query match record that is registered for the
  stream.
*/
module AVResults {
  import opened Wrappers
  import opened ResultEntries

  /** The two parts of an audio/video match, either of which may be absent. */
  datatype AVParts = AVParts(audio: Option<ResultEntry>, video: Option<ResultEntry>)

  const WitnessEntry := ResultEntry(TrackData("", "", "", map[], MediaType.Audio), Coverage(0.0, 0.0, 0.0), 0)

  /** An audio/video result entry: the constructor's guard makes "at least one part present" an invariant. */
  type AVResultEntry = e: AVParts | e.audio.Some? || e.video.Some?
    witness AVParts(Some(WitnessEntry), None)

  const BothNullMessage := "Both audio and video result entries cannot be null at the same time."

  /** The constructor: both parts absent throws, anything else keeps the parts as given. */
  function NewAVResultEntry(audio: Option<ResultEntry>, video: Option<ResultEntry>): (r: Result<AVResultEntry, ArgumentError>)
    ensures r.Failure? <==> audio.None? && video.None?
    ensures r.Failure? ==> r.error == ArgumentException(BothNullMessage)
    ensures r.Success? ==> r.value.audio == audio && r.value.video == video
  {
    if audio.None? && video.None? then Failure(ArgumentException(BothNullMessage))
    else Success(AVParts(audio, video))
  }

  /** `Deconstruct`: the audio and video parts, which rebuild the same entry. */
  function Deconstruct(e: AVResultEntry): (parts: (Option<ResultEntry>, Option<ResultEntry>))
    ensures parts.0.Some? || parts.1.Some?
    ensures NewAVResultEntry(parts.0, parts.1) == Success(e)
  {
    (e.audio, e.video)
  }

  /** Construct-then-deconstruct is the identity on every pair the guard admits. */
  lemma ConstructThenDeconstruct(audio: Option<ResultEntry>, video: Option<ResultEntry>)
    requires audio.Some? || video.Some?
    ensures NewAVResultEntry(audio, video).Success?
    ensures Deconstruct(NewAVResultEntry(audio, video).value) == (audio, video)
  {
  }

  /** Time of the match: the present part's time, or the earlier of the two when both are present. */
  function MatchedAt(e: AVResultEntry): (t: Ticks)
    ensures e.audio.Some? ==> t <= e.audio.value.matchedAt
    ensures e.video.Some? ==> t <= e.video.value.matchedAt
    ensures (e.audio.Some? && t == e.audio.value.matchedAt) || (e.video.Some? && t == e.video.value.matchedAt)
  {
    match (e.audio, e.video)
    case (None, _) => e.video.value.matchedAt
    case (_, None) => e.audio.value.matchedAt
    case (Some(a), Some(v)) => if a.matchedAt <= v.matchedAt then a.matchedAt else v.matchedAt
  }

  /** With only one part present, the entry is matched exactly when that part is. */
  lemma MatchedAtOfSinglePart(e: AVResultEntry)
    ensures e.audio.None? ==> MatchedAt(e) == e.video.value.matchedAt
    ensures e.video.None? ==> MatchedAt(e) == e.audio.value.matchedAt
  {
  }

  /** Which part is called audio and which video does not change the matched-at time. */
  lemma MatchedAtOrderIndependent(a: ResultEntry, v: ResultEntry)
    ensures MatchedAt(AVParts(Some(a), Some(v))) == MatchedAt(AVParts(Some(v), Some(a)))
  {
  }

  /** The match times of the parts that are present, audio first. */
  function PresentTicks(e: AVResultEntry): (ts: seq<Ticks>)
    ensures 1 <= |ts| <= 2
    ensures e.audio.Some? ==> e.audio.value.matchedAt in ts
    ensures e.video.Some? ==> e.video.value.matchedAt in ts
    ensures forall t :: t in ts ==> (e.audio.Some? && t == e.audio.value.matchedAt) || (e.video.Some? && t == e.video.value.matchedAt)
  {
    (if e.audio.Some? then [e.audio.value.matchedAt] else [])
      + (if e.video.Some? then [e.video.value.matchedAt] else [])
  }

  /** The earliest of a non-empty sequence of times. */
  function Earliest(ts: seq<Ticks>): (t: Ticks)
    requires |ts| > 0
    ensures t in ts
    ensures forall i :: 0 <= i < |ts| ==> t <= ts[i]
  {
    if |ts| == 1 then ts[0]
    else
      var rest := Earliest(ts[1..]);
      if ts[0] <= rest then ts[0] else rest
  }

  /** `MatchedAt` is the earliest time among the parts that are present. */
  lemma MatchedAtIsEarliestPresent(e: AVResultEntry)
    ensures MatchedAt(e) == Earliest(PresentTicks(e))
  {
  }

  /** The track of the audio part if present, otherwise that of the video part. */
  function MatchedTrack(e: AVResultEntry): (track: TrackData)
    ensures e.audio.Some? ==> track == e.audio.value.track
    ensures e.audio.None? ==> track == e.video.value.track
  {
    if e.audio.Some? then e.audio.value.track else e.video.value.track
  }

  /** `TrackId`: defined for every entry, taken from audio when present. */
  function TrackId(e: AVResultEntry): (id: string)
    ensures e.audio.Some? ==> id == e.audio.value.track.id
    ensures e.audio.None? ==> id == e.video.value.track.id
  {
    MatchedTrack(e).id
  }

  /** The track description carried by a query match. */
  datatype TrackInfo = TrackInfo(
    id: string,
    title: string,
    artist: string,
    metaFields: map<string, string>,
    mediaType: MediaType)

  /** A single-modality match as registered for a stream. */
  datatype QueryMatch = QueryMatch(queryMatchId: string, track: TrackInfo, coverage: Coverage, matchedAt: Ticks)

  /** Review state of a registered match; the default is `NoStatus`. */
  datatype ReviewStatus = NoStatus | Accepted | Rejected

  /** An audio/video match as registered for a stream. */
  datatype AVQueryMatch = AVQueryMatch(
    id: string,
    audio: Option<QueryMatch>,
    video: Option<QueryMatch>,
    streamId: string,
    playbackUrl: string,
    reviewStatus: ReviewStatus)

  /** The freshly generated identifiers of one conversion; nothing is assumed about them. */
  datatype MatchIds = MatchIds(avMatchId: string, audioMatchId: string, videoMatchId: string)

  /** The query match carries the entry's track, coverage and time unchanged. */
  predicate CopiesEntry(m: QueryMatch, r: ResultEntry)
  {
    && m.track.id == r.track.id
    && m.track.title == r.track.title
    && m.track.artist == r.track.artist
    && m.track.metaFields == r.track.metaFields
    && m.track.mediaType == r.track.mediaType
    && m.coverage == r.coverage
    && m.matchedAt == r.matchedAt
  }

  /** `ToQueryMatch`: an absent entry gives an absent match, a present one a copy of it. */
  function ToQueryMatch(entry: Option<ResultEntry>, queryMatchId: string): (m: Option<QueryMatch>)
    ensures m.Some? <==> entry.Some?
    ensures m.Some? ==> CopiesEntry(m.value, entry.value)
  {
    match entry
    case None => None
    case Some(r) =>
      var track := TrackInfo(r.track.id, r.track.title, r.track.artist, r.track.metaFields, r.track.mediaType);
      Some(QueryMatch(queryMatchId, track, r.coverage, r.matchedAt))
  }

  /** `ConvertToAvQueryMatch`: each part converted on its own, stream data passed through. */
  function ConvertToAvQueryMatch(
    e: AVResultEntry,
    ids: MatchIds,
    streamId: string := "",
    playbackUrl: string := "",
    reviewStatus: ReviewStatus := NoStatus): (m: AVQueryMatch)
    ensures m.audio.Some? <==> e.audio.Some?
    ensures m.video.Some? <==> e.video.Some?
    ensures m.audio.Some? ==> CopiesEntry(m.audio.value, e.audio.value)
    ensures m.video.Some? ==> CopiesEntry(m.video.value, e.video.value)
    ensures m.streamId == streamId && m.playbackUrl == playbackUrl && m.reviewStatus == reviewStatus
  {
    AVQueryMatch(ids.avMatchId, ToQueryMatch(e.audio, ids.audioMatchId), ToQueryMatch(e.video, ids.videoMatchId),
      streamId, playbackUrl, reviewStatus)
  }

  /** Called without stream data, the match has an empty stream id and playback URL and no review status. */
  lemma ConvertDefaults(e: AVResultEntry, ids: MatchIds)
    ensures ConvertToAvQueryMatch(e, ids).streamId == ""
    ensures ConvertToAvQueryMatch(e, ids).playbackUrl == ""
    ensures ConvertToAvQueryMatch(e, ids).reviewStatus == NoStatus
  {
  }

  /** The registered match keeps the entry's invariant, its track id and its matched-at time. */
  lemma ConvertKeepsIdentity(e: AVResultEntry, ids: MatchIds, streamId: string, playbackUrl: string, reviewStatus: ReviewStatus)
    ensures var m := ConvertToAvQueryMatch(e, ids, streamId, playbackUrl, reviewStatus);
      && (m.audio.Some? || m.video.Some?)
      && (if m.audio.Some? then m.audio.value.track.id else m.video.value.track.id) == TrackId(e)
      && Earliest((if m.audio.Some? then [m.audio.value.matchedAt] else [])
           + (if m.video.Some? then [m.video.value.matchedAt] else [])) == MatchedAt(e)
  {
  }
}
