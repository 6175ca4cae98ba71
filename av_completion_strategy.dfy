/**
  The audio/video completion strategy: may a combined audio/video match found
  in one realtime query call still continue into the next one? It combines one
  strategy per modality and continues when either of them does.
*/
module AVCompletion {
  import opened Wrappers
  import opened ResultEntries
  import opened AVResults

  /** A single-modality strategy: may this (possibly absent) match continue into the next query? */
  type EntryStrategy = Option<ResultEntry> -> bool

  /**
    The single-modality strategy built from a permitted gap. Its gap arithmetic
    is not part of this model, so it is a parameter: the decision it makes for
    a given permitted gap and a given (possibly absent) entry.
  */
  type GapStrategy = (real, Option<ResultEntry>) -> bool

  /** The two strategies, fixed at construction. */
  datatype AVCompletionStrategy = AVCompletionStrategy(audioStrategy: EntryStrategy, videoStrategy: EntryStrategy)

  /** Per-modality query settings; only the permitted gap is read here. */
  datatype QueryConfiguration = QueryConfiguration(permittedGap: real)

  /** Audio and video query settings. */
  datatype AVQueryConfiguration = AVQueryConfiguration(audio: QueryConfiguration, video: QueryConfiguration)

  /** The constructor from two strategies: a missing one throws, the audio argument being checked first. */
  function NewAVCompletionStrategy(audio: Option<EntryStrategy>, video: Option<EntryStrategy>): (r: Result<AVCompletionStrategy, ArgumentError>)
    ensures r.Success? <==> audio.Some? && video.Some?
    ensures audio.None? ==> r == Failure(ArgumentNullException("audioStrategy"))
    ensures audio.Some? && video.None? ==> r == Failure(ArgumentNullException("videoStrategy"))
    ensures r.Success? ==> r.value.audioStrategy == audio.value && r.value.videoStrategy == video.value
  {
    if audio.None? then Failure(ArgumentNullException("audioStrategy"))
    else if video.None? then Failure(ArgumentNullException("videoStrategy"))
    else Success(AVCompletionStrategy(audio.value, video.value))
  }

  /**
    The constructor from a configuration: the audio strategy uses the audio
    permitted gap and the video strategy the video one. Both strategies are
    present, so the checked constructor succeeds.
  */
  function FromConfiguration(config: AVQueryConfiguration, gapStrategy: GapStrategy): (r: Result<AVCompletionStrategy, ArgumentError>)
    ensures r.Success?
    ensures forall o :: r.value.audioStrategy(o) == gapStrategy(config.audio.permittedGap, o)
    ensures forall o :: r.value.videoStrategy(o) == gapStrategy(config.video.permittedGap, o)
  {
    NewAVCompletionStrategy(
      Some(o => gapStrategy(config.audio.permittedGap, o)),
      Some(o => gapStrategy(config.video.permittedGap, o)))
  }

  /** `CanContinueInNextQuery`: a missing entry never continues; otherwise either modality may carry it on. */
  function CanContinueInNextQuery(s: AVCompletionStrategy, entry: Option<AVResultEntry>): (r: bool)
    ensures r ==> entry.Some?
    ensures r ==> s.audioStrategy(entry.value.audio) || s.videoStrategy(entry.value.video)
  {
    entry.Some? && (s.audioStrategy(entry.value.audio) || s.videoStrategy(entry.value.video))
  }

  /** A missing entry never continues, whatever the strategies. */
  lemma NullEntryNeverContinues(s: AVCompletionStrategy)
    ensures !CanContinueInNextQuery(s, None)
  {
  }

  /** An entry continues if its audio part does, whatever the video part and its strategy say. */
  lemma AudioAloneSuffices(s: AVCompletionStrategy, e: AVResultEntry)
    requires s.audioStrategy(e.audio)
    ensures CanContinueInNextQuery(s, Some(e))
  {
  }

  /** An entry continues if its video part does, whatever the audio part and its strategy say. */
  lemma VideoAloneSuffices(s: AVCompletionStrategy, e: AVResultEntry)
    requires s.videoStrategy(e.video)
    ensures CanContinueInNextQuery(s, Some(e))
  {
  }

  /** A present entry is rejected exactly when both strategies reject their part. */
  lemma RejectsOnlyWhenBothReject(s: AVCompletionStrategy, e: AVResultEntry)
    ensures !CanContinueInNextQuery(s, Some(e)) <==> !s.audioStrategy(e.audio) && !s.videoStrategy(e.video)
  {
  }

  /**
    The strategies see the parts as they are, absent ones included: an entry
    with no audio part still continues when the audio strategy accepts an
    absent match.
  */
  lemma AbsentPartsReachStrategies(s: AVCompletionStrategy, e: AVResultEntry)
    ensures e.audio.None? && s.audioStrategy(None) ==> CanContinueInNextQuery(s, Some(e))
    ensures e.video.None? && s.videoStrategy(None) ==> CanContinueInNextQuery(s, Some(e))
  {
  }

  /** More permissive strategies never stop an entry that less permissive ones let continue. */
  lemma CanContinueMonotone(s: AVCompletionStrategy, t: AVCompletionStrategy, entry: Option<AVResultEntry>)
    requires forall o :: s.audioStrategy(o) ==> t.audioStrategy(o)
    requires forall o :: s.videoStrategy(o) ==> t.videoStrategy(o)
    ensures CanContinueInNextQuery(s, entry) ==> CanContinueInNextQuery(t, entry)
  {
  }

  /**
    Audio and video are not swapped: with the other strategy rejecting
    everything, the decision is the audio strategy's verdict on the audio part,
    and the video strategy's verdict on the video part.
  */
  lemma EachStrategySeesItsOwnPart(a: EntryStrategy, v: EntryStrategy, e: AVResultEntry)
    ensures CanContinueInNextQuery(AVCompletionStrategy(a, o => false), Some(e)) == a(e.audio)
    ensures CanContinueInNextQuery(AVCompletionStrategy(o => false, v), Some(e)) == v(e.video)
  {
  }

  /** The combinator is symmetric: exchanging the two strategies decides as exchanging the entry's two parts. */
  lemma SwappedStrategiesSeeSwappedParts(s: AVCompletionStrategy, e: AVResultEntry)
    ensures CanContinueInNextQuery(AVCompletionStrategy(s.videoStrategy, s.audioStrategy), Some(AVParts(e.video, e.audio)))
        == CanContinueInNextQuery(s, Some(e))
  {
  }

  /**
    With the strategies built from a configuration, a present entry continues
    exactly when its audio part fits the audio gap or its video part fits the
    video gap.
  */
  lemma ConfiguredDecision(config: AVQueryConfiguration, gapStrategy: GapStrategy, e: AVResultEntry)
    ensures CanContinueInNextQuery(FromConfiguration(config, gapStrategy).value, Some(e))
        <==> gapStrategy(config.audio.permittedGap, e.audio) || gapStrategy(config.video.permittedGap, e.video)
  {
  }
}
