# Audio/video result entries and their completion strategy

This project models two pieces of the realtime matching logic of the SoundFingerprinting
content-identification engine.

- **The audio/video result entry** (`AVResultEntry`) pairs an optional audio match with an
  optional video match. The constructor refuses an entry with neither part, so every entry
  has at least one part. The entry reports its track id (from audio when present, otherwise
  from video) and its matched-at time (that of the present part, or the earlier of the two).
  It can be deconstructed into its two parts and converted into the `AVQueryMatch` record that
  is registered for a stream.
- **The audio/video completion strategy** (`AVResultEntryCompletionStrategy`) decides whether
  a combined match found in one realtime query call may continue into the next call. A
  missing entry never continues. A present entry continues when the audio strategy accepts
  its audio part or the video strategy accepts its video part. The two per-modality
  strategies are fixed at construction, either given directly or built from the audio and
  video permitted gaps of a query configuration.

Both are pure in the source, so both are modelled as datatypes, total functions and lemmas:

- `wrappers.dfy`: `Option` for nullable references, `Result` and `ArgumentError` for the
  argument exceptions the constructors throw.
- `result_entry.dfy`: the single-modality `ResultEntry` (track, coverage, matched-at time).
  `DateTime` is its tick count, limited to `[0, DateTime.MaxValue.Ticks]`.
- `av_result_entry.dfy`: `AVResultEntry` is a subset type of the two-part record whose
  predicate is the constructor's guard, with the entry's properties and its conversion.
- `av_completion_strategy.dfy`: the completion strategy. A per-modality strategy
  (`ICompletionStrategy<ResultEntry>`) is a function value over an optional `ResultEntry`.
  A null strategy argument is `None`.

## Model

| member | source | states |
|---|---|---|
| AVResults.NewAVResultEntry | src/SoundFingerprinting/Query/AVResultEntry.cs:18-27 | construction fails, with the ArgumentException message, exactly when both parts are absent; otherwise `Audio` and `Video` are the arguments as given |
| AVResults.Deconstruct | src/SoundFingerprinting/Query/AVResultEntry.cs:80-84 | the two parts returned are never both absent, and constructing from them gives back the same entry |
| AVResults.ConstructThenDeconstruct | src/SoundFingerprinting/Query/AVResultEntry.cs:25-26 | for any pair with a present part, construction succeeds and deconstruction returns that same pair |
| AVResults.MatchedAt | src/SoundFingerprinting/Query/AVResultEntry.cs:50-61 | the matched-at time is no later than each present part's time and equals one of them; it is always a valid `DateTime` tick count |
| AVResults.MatchedAtOfSinglePart | src/SoundFingerprinting/Query/AVResultEntry.cs:56-57 | with audio absent it is the video time; with video absent it is the audio time |
| AVResults.MatchedAtOrderIndependent | src/SoundFingerprinting/Query/AVResultEntry.cs:58 | with both parts present, exchanging audio and video does not change the matched-at time |
| AVResults.Earliest | src/SoundFingerprinting/Query/AVResultEntry.cs:47-48 | reference definition of "minimum": the result is an element of the non-empty sequence and no later than any element |
| AVResults.MatchedAtIsEarliestPresent | src/SoundFingerprinting/Query/AVResultEntry.cs:47-58 | the matched-at time is the earliest of the present parts' times |
| AVResults.MatchedTrack | src/SoundFingerprinting/Query/AVResultEntry.cs:97 | the track is the audio part's when audio is present, otherwise the video part's |
| AVResults.TrackId | src/SoundFingerprinting/Query/AVResultEntry.cs:42 | the track id is defined for every entry: the audio track's id when audio is present, otherwise the video track's |
| AVResults.ToQueryMatch | src/SoundFingerprinting/Query/AVResultEntry.cs:86-95 | an absent entry gives an absent query match; a present one gives a match with the same track id, title, artist, meta fields, media type, coverage and matched-at time |
| AVResults.ConvertToAvQueryMatch | src/SoundFingerprinting/Query/AVResultEntry.cs:70-73 | the audio (video) query match is present exactly when the audio (video) part is, copies that part, and stream id, playback URL and review status pass through unchanged |
| AVResults.ConvertDefaults | src/SoundFingerprinting/Query/AVResultEntry.cs:70 | without stream data the stream id and playback URL are empty and the review status is the default |
| AVResults.ConvertKeepsIdentity | src/SoundFingerprinting/Query/AVResultEntry.cs:72 | the registered match has a present part, and its track id and earliest match time are the entry's `TrackId` and `MatchedAt` |
| AVCompletion.NewAVCompletionStrategy | src/SoundFingerprinting/Query/AVResultEntryCompletionStrategy.cs:11-15 | a null audio strategy throws ArgumentNullException for `audioStrategy` (checked first), a null video strategy one for `videoStrategy`; otherwise the strategies are kept as given |
| AVCompletion.FromConfiguration | src/SoundFingerprinting/Query/AVResultEntryCompletionStrategy.cs:17-22 | given a configuration, construction succeeds; the audio strategy decides with the audio permitted gap and the video strategy with the video permitted gap |
| AVCompletion.CanContinueInNextQuery | src/SoundFingerprinting/Query/AVResultEntryCompletionStrategy.cs:24-32 | a decision to continue implies a present entry one of whose strategies accepts its part |
| AVCompletion.NullEntryNeverContinues | src/SoundFingerprinting/Query/AVResultEntryCompletionStrategy.cs:26-29 | a missing entry never continues |
| AVCompletion.AudioAloneSuffices | src/SoundFingerprinting/Query/AVResultEntryCompletionStrategy.cs:31 | if the audio strategy accepts the audio part, the entry continues whatever the video side says |
| AVCompletion.VideoAloneSuffices | src/SoundFingerprinting/Query/AVResultEntryCompletionStrategy.cs:31 | if the video strategy accepts the video part, the entry continues whatever the audio side says |
| AVCompletion.RejectsOnlyWhenBothReject | src/SoundFingerprinting/Query/AVResultEntryCompletionStrategy.cs:31 | a present entry is rejected if and only if both strategies reject their part |
| AVCompletion.AbsentPartsReachStrategies | src/SoundFingerprinting/Query/AVResultEntryCompletionStrategy.cs:31 | absent parts are handed to the strategies as they are: an absent part that its strategy accepts makes the entry continue |
| AVCompletion.CanContinueMonotone | src/SoundFingerprinting/Query/AVResultEntryCompletionStrategy.cs:31 | strategies that accept at least as much never reject an entry that the less permissive ones accept |
| AVCompletion.EachStrategySeesItsOwnPart | src/SoundFingerprinting/Query/AVResultEntryCompletionStrategy.cs:31 | audio and video are not swapped: with the other strategy rejecting everything, the decision is the audio strategy's verdict on the audio part, or the video strategy's verdict on the video part |
| AVCompletion.SwappedStrategiesSeeSwappedParts | src/SoundFingerprinting/Query/AVResultEntryCompletionStrategy.cs:31 | the combinator is symmetric: exchanging the two strategies decides the same as exchanging the entry's two parts |
| AVCompletion.ConfiguredDecision | src/SoundFingerprinting/Query/AVResultEntryCompletionStrategy.cs:17-31 | with strategies built from a configuration, an entry continues exactly when its audio part fits the audio gap or its video part fits the video gap |

## Left out

- `ResultEntryCompletionStrategy` (the per-modality gap check) is not part of this model. Its decision for a permitted gap and an optional entry is the parameter `gapStrategy` of `FromConfiguration`.
- The permitted gap is a `double` in the source and a `real` here. No arithmetic is done on it, so rounding does not arise.
- `Guid.NewGuid()` identifiers are the parameter `MatchIds` of `ConvertToAvQueryMatch`, because they are random. Nothing is stated about them.
- `FromConfiguration`: the configuration and its audio and video parts are never null here, so the `NullReferenceException` that a null configuration or a null part would raise when the permitted gaps are read is not modelled. The per-modality strategy's constructor is taken to accept every permitted gap without throwing.
- `TrackData`, `TrackInfo`, `QueryMatch`, `AVQueryMatch`, `Coverage`, `MediaType` and `ReviewStatus` are defined elsewhere in the library. Only the fields that the entry reads or copies are kept. `Coverage` is only copied, so it is an opaque record whose three fields are illustrative. The three `MediaType` values are invented. `ReviewStatus` has its default `None` as `NoStatus`, and its other two values are invented.
- `DateTime.Kind` is not modelled. `new DateTime(ticks)` in `MatchedAt` yields an unspecified kind, and a `DateTime` here is only its tick count.
- The query command, the SQL hash-bin store, the fingerprint configuration and the realtime query loop are not part of this model. They call the fingerprinting, query and storage services, a database and asynchronous audio sources, none of which is modelled here.
