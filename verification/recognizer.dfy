/** The meeting-mode recognizer as pure transitions on one state record: sample
    buffering, the per-tick finalize decision, the speaker-attribution pass and the
    start/stop lifecycle. The streaming decoder, the punctuation model and the
    diarizer are parameters. */
module Recognizer {
  import opened Common
  import opened AudioBuffer
  import opened Attribution
  import opened SpeakerTag
  import ConfigEditor

  /** Hypotheses longer than this many characters are finalized without an endpoint. */
  const MaxHypothesisLength: nat := 80

  /** Everything the recognizer keeps between calls. Each field names the plugin's
      member it stands for. */
  datatype State = State(
    config: ConfigEditor.Config,   // _userConfig
    meetingModeEnabled: bool,      // _meetingModeEnabled
    diarizerReady: bool,           // _speakerDiarization != null
    punctuationReady: bool,        // punctuation != null
    history: seq<Sample>,          // _audioBuffer
    pending: seq<Sample>,          // _writeBuffer
    currentSpeaker: int,           // _currentSpeakerId
    running: bool,                 // thread != null
    stopRequested: bool)           // stop

  /** A freshly constructed recognizer. */
  const Initial: State :=
    State(ConfigEditor.DefaultConfig, false, false, false, [], [], -1, false, false)

  /** Samples are buffered only while both the run-time flag and the setting are on. */
  predicate MeetingActive(st: State) {
    st.meetingModeEnabled && st.config.enableMeetingMode
  }

  /** The bound on the history that every transition keeps. */
  predicate Valid(st: State) {
    |st.history| <= MaxAudioBufferSize
  }

  /** The worker loop is executing: a thread exists and no stop was requested. */
  predicate Looping(st: State) {
    st.running && !st.stopRequested
  }

  /** Whatever a transition does, the settings, the engine slots and the lifecycle flags stay. */
  predicate SameControl(a: State, b: State) {
    && a.config == b.config
    && a.meetingModeEnabled == b.meetingModeEnabled
    && a.diarizerReady == b.diarizerReady
    && a.punctuationReady == b.punctuationReady
    && a.running == b.running
    && a.stopRequested == b.stopRequested
  }

  // ---- feeding samples ----

  /** Accepts captured samples. In meeting mode they are added both to the pending samples and
      to the history, which then drops its oldest samples beyond the maximum; otherwise the
      buffers are untouched. */
  function Feed(st: State, samples: seq<Sample>): (r: State)
    ensures MeetingActive(st) ==> r.pending == st.pending + samples
    ensures MeetingActive(st) ==> r.history == Last(st.history + samples, MaxAudioBufferSize)
    ensures !MeetingActive(st) ==> r == st
    ensures SameControl(st, r) && r.currentSpeaker == st.currentSpeaker
    ensures Valid(st) ==> Valid(r)
  {
    TrimIsLast(st.history + samples);
    if MeetingActive(st) then st.(pending := st.pending + samples, history := Trim(st.history + samples))
    else st
  }

  // ---- the attribution pass ----

  /** What the diarizer returned: its segments, or an exception. */
  datatype Diarization = Segments(segments: seq<Segment>) | DiarizeFailed

  /** An attribution pass either abandons the tick (the loop's `continue`) or lets the
      sentence be emitted with the given text. */
  datatype Pass = Skip(after: State) | Emit(after: State, text: string)

  /** The history after the pass appends the pending samples to it once more. */
  function Refilled(st: State): seq<Sample> {
    Trim(st.history + st.pending)
  }

  /** The samples handed to the diarizer: the most recent part of the refilled history. */
  function Window(st: State): seq<Sample> {
    Last(Refilled(st), ProcessingWindowSize)
  }

  /** Finds the dominant speaker of the new audio and labels the sentence with it. With no
      pending samples the tick is abandoned untouched; otherwise the pending samples are moved
      into the history, and a window shorter than one second abandons the tick. */
  function Attribute(st: State, text: string, diarize: seq<Sample> -> Diarization): (r: Pass)
    ensures |st.pending| == 0 ==> r == Skip(st)
    ensures |st.pending| > 0 ==> r.after.pending == [] && r.after.history == Refilled(st)
    ensures |st.pending| > 0 ==> (r.Skip? <==> |Window(st)| < MinWindowSize)
    ensures SameControl(st, r.after)
    ensures r.Emit? ==>
      || (r.after.currentSpeaker == st.currentSpeaker && r.text == text)
      || (r.after.currentSpeaker >= 0 && r.text == Tagged(r.after.currentSpeaker, text))
  {
    if |st.pending| == 0 then Skip(st)
    else
      var window := Window(st);
      var drained := st.(history := Refilled(st), pending := []);
      if |window| < MinWindowSize then Skip(drained)
      else
        var result := if st.diarizerReady then diarize(window) else DiarizeFailed;
        match result
        case DiarizeFailed => Emit(drained, text)
        case Segments(segs) =>
          if |segs| == 0 then Emit(drained, text)
          else
            var d := DominantSpeaker(segs, |window|, |st.pending|);
            if d >= 0 then
              var speaker :=
                if drained.currentSpeaker < 0 || d != drained.currentSpeaker then d
                else drained.currentSpeaker;
              Emit(drained.(currentSpeaker := speaker), Tagged(speaker, text))
            else Emit(drained, text)
  }

  /** The window is the most recent `min(160000, n)` samples of history and pending samples
      together, and it ends with all pending samples whenever they fit in it. */
  lemma WindowIsRecent(st: State)
    ensures Window(st) == Last(st.history + st.pending, ProcessingWindowSize)
    ensures |Window(st)| == Min(ProcessingWindowSize, |st.history + st.pending|)
    ensures |st.pending| <= ProcessingWindowSize ==>
      Window(st)[|Window(st)| - |st.pending|..] == st.pending
  {
    TrimIsLast(st.history + st.pending);
    LastOfLast(st.history + st.pending, MaxAudioBufferSize, ProcessingWindowSize);
    if |st.pending| <= ProcessingWindowSize {
      LastEndsWith(st.history, st.pending, ProcessingWindowSize);
    }
  }

  /** When the diarizer names a dominant speaker, that speaker becomes the active one and
      labels the sentence, whatever speaker was active before. */
  lemma DominantBecomesActive(st: State, text: string, diarize: seq<Sample> -> Diarization)
    requires |st.pending| > 0 && |Window(st)| >= MinWindowSize && st.diarizerReady
    requires diarize(Window(st)).Segments?
    requires DominantSpeaker(diarize(Window(st)).segments, |Window(st)|, |st.pending|) >= 0
    ensures var d := DominantSpeaker(diarize(Window(st)).segments, |Window(st)|, |st.pending|);
      Attribute(st, text, diarize)
        == Emit(st.(history := Refilled(st), pending := [], currentSpeaker := d), Tagged(d, text))
  {
  }

  /** When no segment reaches into the new audio, or the diarizer fails, the active speaker
      is kept and the sentence goes out without a label. */
  lemma NoOverlapKeepsSpeaker(st: State, text: string, diarize: seq<Sample> -> Diarization)
    requires |st.pending| > 0 && |Window(st)| >= MinWindowSize
    requires
      || !st.diarizerReady
      || diarize(Window(st)).DiarizeFailed?
      || forall x :: !Speaks(diarize(Window(st)).segments, x,
                             NewDataOffset(|Window(st)|, |st.pending|))
    ensures Attribute(st, text, diarize)
      == Emit(st.(history := Refilled(st), pending := []), text)
  {
    if st.diarizerReady && diarize(Window(st)).Segments? {
      var segs := diarize(Window(st)).segments;
      var offset := NewDataOffset(|Window(st)|, |st.pending|);
      var t := Tally(segs, offset);
      TallyIsSpeakerWeight(segs, offset);
      NoSpeakerNoEntries(t);
      assert DominantSpeaker(segs, |Window(st)|, |st.pending|) == -1;
    }
  }

  /** Feeding samples into empty pending storage and then finalizing puts those samples into
      the history twice: once on arrival and once more in the attribution pass. */
  lemma PendingAppendedTwice(st: State, samples: seq<Sample>, text: string,
                             diarize: seq<Sample> -> Diarization)
    requires MeetingActive(st) && st.pending == [] && |samples| > 0
    requires 2 * |samples| <= MaxAudioBufferSize
    ensures var h := Attribute(Feed(st, samples), text, diarize).after.history;
      |h| >= 2 * |samples| && h[|h| - 2 * |samples|..] == samples + samples
  {
    var fed := Feed(st, samples);
    assert fed.pending == samples;
    RefilledAfterFeed(st, samples);
    LastEndsWith(st.history, samples + samples, MaxAudioBufferSize);
  }

  lemma RefilledAfterFeed(st: State, samples: seq<Sample>)
    requires MeetingActive(st) && st.pending == []
    ensures Refilled(Feed(st, samples)) == Last(st.history + (samples + samples), MaxAudioBufferSize)
  {
    var a := st.history + samples;
    var fed := Feed(st, samples);
    assert fed.pending == samples;
    assert fed.history == Last(a, MaxAudioBufferSize);
    RefillAppends(fed, a, samples);
    assert a + samples == st.history + (samples + samples);
  }

  lemma RefillAppends(fed: State, a: seq<Sample>, samples: seq<Sample>)
    requires fed.pending == samples
    requires fed.history == Last(a, MaxAudioBufferSize)
    ensures Refilled(fed) == Last(a + samples, MaxAudioBufferSize)
  {
    TrimIsLast(fed.history + samples);
    assert Refilled(fed) == Last(Last(a, MaxAudioBufferSize) + samples, MaxAudioBufferSize);
    LastAppend(a, samples, MaxAudioBufferSize);
  }

  // ---- one iteration of the worker loop ----

  /** What the streaming decoder reports after draining its ready frames. */
  datatype Decoded = Decoded(isEndpoint: bool, text: string)

  /** What observers are told. */
  datatype Event = TextChanged(text: string) | SentenceDone(text: string) | ExceptionOccured

  /** The state after one loop iteration, the events it raised, whether it reset the
      decoder stream and whether it reached the idle sleep at the end of the loop body. */
  datatype TickResult = TickResult(after: State, events: seq<Event>, resetStream: bool, slept: bool)

  /** The worker's `finally` block: the run is over and no thread remains. */
  function Crashed(st: State): (r: State)
    ensures !Looping(r) && !r.running && r.stopRequested
    ensures r.history == st.history && r.pending == st.pending && r.config == st.config
    ensures r.currentSpeaker == st.currentSpeaker && r.meetingModeEnabled == st.meetingModeEnabled
    ensures r.diarizerReady == st.diarizerReady && r.punctuationReady == st.punctuationReady
  {
    st.(running := false, stopRequested := true)
  }

  /** The hypothesis after optional punctuation; `None` when the punctuation model threw. */
  function Punctuated(st: State, text: string, punctuate: string -> Option<string>): Option<string> {
    if st.config.enablePunctuation && st.punctuationReady then punctuate(text) else Some(text)
  }

  /** A hypothesis is final at an endpoint or once it is longer than the cap. */
  predicate Finalizes(isEndpoint: bool, text: string) {
    isEndpoint || |text| > MaxHypothesisLength
  }

  /** One iteration of the worker loop after the decoder has been drained. A non-empty
      hypothesis is punctuated and reported as partial text; a final one goes through the
      attribution pass in meeting mode and is then reported as a sentence, after which the
      stream is reset. An exception from the punctuation model ends the run. */
  function Tick(st: State, obs: Decoded, punctuate: string -> Option<string>,
                diarize: seq<Sample> -> Diarization): (r: TickResult)
    ensures Valid(st) ==> Valid(r.after)
    ensures |r.events| <= 2
    ensures r.resetStream <==> (|r.events| == 2 && r.events[1].SentenceDone?)
    ensures forall i :: 0 <= i < |r.events| && r.events[i].SentenceDone? ==>
      i == 1 && r.events[0].TextChanged?
    ensures !Looping(st) ==> r == TickResult(st, [], false, false)
    ensures Looping(st) && obs.text == "" ==> r == TickResult(st, [], false, true)
    ensures Looping(st) && obs.text != "" && Punctuated(st, obs.text, punctuate).Some? ==>
      |r.events| > 0 && r.events[0] == TextChanged(Punctuated(st, obs.text, punctuate).value)
    ensures r.resetStream ==>
      (&& obs.text != ""
       && Punctuated(st, obs.text, punctuate).Some?
       && Finalizes(obs.isEndpoint, Punctuated(st, obs.text, punctuate).value))
    ensures Looping(st) && obs.text != "" && Punctuated(st, obs.text, punctuate).Some?
            && !Finalizes(obs.isEndpoint, Punctuated(st, obs.text, punctuate).value) ==>
      && r.after == st && !r.resetStream && r.slept
      && r.events == [TextChanged(Punctuated(st, obs.text, punctuate).value)]
    ensures Looping(st) && obs.text != "" && Punctuated(st, obs.text, punctuate).None? ==>
      r == TickResult(Crashed(st), [ExceptionOccured], false, false)
  {
    if !Looping(st) then TickResult(st, [], false, false)
    else if obs.text == "" then TickResult(st, [], false, true)
    else
      match Punctuated(st, obs.text, punctuate)
      case None => TickResult(Crashed(st), [ExceptionOccured], false, false)
      case Some(text) =>
        if !Finalizes(obs.isEndpoint, text) then TickResult(st, [TextChanged(text)], false, true)
        else if !MeetingActive(st) then
          TickResult(st, [TextChanged(text), SentenceDone(text)], true, true)
        else
          TrimIsLast(st.history + st.pending);
          match Attribute(st, text, diarize)
          case Skip(after) => TickResult(after, [TextChanged(text)], false, false)
          case Emit(after, sentence) =>
            TickResult(after, [TextChanged(text), SentenceDone(sentence)], true, true)
  }

  /** In meeting mode a final hypothesis goes through the attribution pass, and the pass
      alone decides the outcome: its state is the new state, an emitted sentence is reported
      after the partial text with a reset and a sleep, and a skipped pass reports the partial
      text only, with neither. */
  lemma MeetingTickIsAttribute(st: State, obs: Decoded, punctuate: string -> Option<string>,
                               diarize: seq<Sample> -> Diarization)
    requires Looping(st) && MeetingActive(st) && obs.text != ""
    requires Punctuated(st, obs.text, punctuate).Some?
    requires Finalizes(obs.isEndpoint, Punctuated(st, obs.text, punctuate).value)
    ensures var text := Punctuated(st, obs.text, punctuate).value;
      var p := Attribute(st, text, diarize);
      var r := Tick(st, obs, punctuate, diarize);
      && r.after == p.after
      && (p.Emit? ==> r.events == [TextChanged(text), SentenceDone(p.text)] && r.resetStream && r.slept)
      && (p.Skip? ==> r.events == [TextChanged(text)] && !r.resetStream && !r.slept)
  {
  }

  /** Outside meeting mode a tick emits a sentence exactly when the hypothesis is non-empty
      and final, and the sentence is the punctuated hypothesis itself. */
  lemma PlainTickFinalizes(st: State, obs: Decoded, punctuate: string -> Option<string>,
                           diarize: seq<Sample> -> Diarization)
    requires Looping(st) && !MeetingActive(st)
    requires Punctuated(st, obs.text, punctuate).Some?
    ensures var r := Tick(st, obs, punctuate, diarize);
      var text := Punctuated(st, obs.text, punctuate).value;
      && r.after == st
      && (r.resetStream <==> obs.text != "" && Finalizes(obs.isEndpoint, text))
      && (r.resetStream ==> r.events == [TextChanged(text), SentenceDone(text)])
  {
  }

  /** In meeting mode, a final hypothesis with no pending samples abandons the tick: partial
      text only, no sentence, no stream reset, no sleep, and the state unchanged. */
  lemma NoPendingSkipsTick(st: State, obs: Decoded, punctuate: string -> Option<string>,
                           diarize: seq<Sample> -> Diarization)
    requires Looping(st) && MeetingActive(st) && st.pending == [] && obs.text != ""
    requires Punctuated(st, obs.text, punctuate).Some?
    requires Finalizes(obs.isEndpoint, Punctuated(st, obs.text, punctuate).value)
    ensures Tick(st, obs, punctuate, diarize)
      == TickResult(st, [TextChanged(Punctuated(st, obs.text, punctuate).value)], false, false)
  {
  }

  /** In meeting mode, a final hypothesis whose window is under one second still drains the
      pending samples into the history but emits no sentence and neither resets nor sleeps. */
  lemma ShortWindowSkipsTick(st: State, obs: Decoded, punctuate: string -> Option<string>,
                             diarize: seq<Sample> -> Diarization)
    requires Looping(st) && MeetingActive(st) && |st.pending| > 0 && obs.text != ""
    requires Punctuated(st, obs.text, punctuate).Some?
    requires Finalizes(obs.isEndpoint, Punctuated(st, obs.text, punctuate).value)
    requires |Window(st)| < MinWindowSize
    ensures var r := Tick(st, obs, punctuate, diarize);
      && r.after == st.(history := Refilled(st), pending := [])
      && r.events == [TextChanged(Punctuated(st, obs.text, punctuate).value)]
      && !r.resetStream && !r.slept
  {
  }

  /** An exception from the punctuation model ends the run: the loop stops, no thread remains
      and observers are told of the exception. */
  lemma PunctuationFailureEndsRun(st: State, obs: Decoded, punctuate: string -> Option<string>,
                                  diarize: seq<Sample> -> Diarization)
    requires Looping(st) && obs.text != "" && Punctuated(st, obs.text, punctuate).None?
    ensures var r := Tick(st, obs, punctuate, diarize);
      !Looping(r.after) && !r.after.running && r.events == [ExceptionOccured]
  {
  }

  /** Right after an attribution pass nothing is pending, so a second pass with no samples fed
      in between abandons the tick and changes nothing. */
  lemma DrainIsIdempotent(st: State, text: string, text2: string, diarize: seq<Sample> -> Diarization)
    requires |st.pending| > 0
    ensures var once := Attribute(st, text, diarize).after;
      once.pending == [] && Attribute(once, text2, diarize) == Skip(once)
  {
  }

  // ---- lifecycle ----

  datatype LifecycleError = AlreadyRunning | ConfigUnreadable

  /** Starts the worker; refused while a worker thread exists. */
  function Start(st: State): (r: Result<State, LifecycleError>)
    ensures r.Err? <==> st.running
    ensures r.Err? ==> r.error == AlreadyRunning
    ensures r.Ok? ==> Looping(r.value)
    ensures r.Ok? ==>
      (&& r.value.history == st.history && r.value.pending == st.pending
       && r.value.currentSpeaker == st.currentSpeaker && r.value.config == st.config)
    ensures r.Ok? ==>
      (&& r.value.meetingModeEnabled == st.meetingModeEnabled && r.value.diarizerReady == st.diarizerReady
       && r.value.punctuationReady == st.punctuationReady)
  {
    if st.running then Err(AlreadyRunning)
    else Ok(st.(running := true, stopRequested := false))
  }

  /** Which native constructions succeed at the start of a run: the diarizer, the punctuation
      model, and the lookup of the four model files. */
  datatype Engines = Engines(diarizerBuilt: bool, punctuationBuilt: bool, modelFilesFound: bool)

  /** The start of a run, before the loop: meeting mode is switched on only if the diarizer
      could be built (which also empties the pending samples), punctuation is attached if
      configured and buildable, and missing model files end the run with an exception. */
  function BeginRun(st: State, engines: Engines): (r: (State, seq<Event>))
    ensures MeetingActive(r.0) <==> st.config.enableMeetingMode && engines.diarizerBuilt
    ensures MeetingActive(r.0) ==> r.0.pending == [] && r.0.diarizerReady
    ensures !MeetingActive(r.0) && st.config.enableMeetingMode ==> !r.0.meetingModeEnabled
    ensures st.config.enablePunctuation && st.config.punctuationModel != "" ==>
      r.0.punctuationReady == engines.punctuationBuilt
    ensures !(st.config.enablePunctuation && st.config.punctuationModel != "") ==>
      r.0.punctuationReady == st.punctuationReady
    ensures r.0.history == st.history && r.0.currentSpeaker == st.currentSpeaker
    ensures r.0.config == st.config
    ensures engines.modelFilesFound && Looping(st) ==> Looping(r.0) && r.1 == []
    ensures !engines.modelFilesFound ==> !r.0.running && !Looping(r.0) && r.1 == [ExceptionOccured]
    ensures engines.modelFilesFound ==> r.0.running == st.running && r.0.stopRequested == st.stopRequested
    ensures !st.config.enableMeetingMode ==>
      && r.0.meetingModeEnabled == st.meetingModeEnabled
      && r.0.diarizerReady == st.diarizerReady && r.0.pending == st.pending
    ensures st.config.enableMeetingMode && !engines.diarizerBuilt ==>
      r.0.diarizerReady == st.diarizerReady && r.0.pending == st.pending
  {
    var s2 := AttachPunctuation(SetUpMeeting(st, engines.diarizerBuilt), engines.punctuationBuilt);
    if engines.modelFilesFound then (s2, []) else (Crashed(s2), [ExceptionOccured])
  }

  /** The meeting-mode part of the start of a run: with meeting mode configured, the flag
      follows whether the diarizer could be built, and a built diarizer starts from empty
      pending samples. */
  function SetUpMeeting(st: State, built: bool): (r: State)
    ensures MeetingActive(r) <==> st.config.enableMeetingMode && built
    ensures MeetingActive(r) ==> r.pending == [] && r.diarizerReady
    ensures st.config.enableMeetingMode && !built ==> !r.meetingModeEnabled
    ensures !st.config.enableMeetingMode ==> r == st
    ensures !MeetingActive(r) ==> r.diarizerReady == st.diarizerReady && r.pending == st.pending
    ensures && r.config == st.config && r.history == st.history
            && r.currentSpeaker == st.currentSpeaker && r.punctuationReady == st.punctuationReady
            && r.running == st.running && r.stopRequested == st.stopRequested
  {
    if !st.config.enableMeetingMode then st
    else if built then st.(meetingModeEnabled := true, diarizerReady := true, pending := [])
    else st.(meetingModeEnabled := false)
  }

  /** The punctuation part of the start of a run: the model is attached only when punctuation
      is enabled and a model is configured, and then only if it could be built. */
  function AttachPunctuation(st: State, built: bool): (r: State)
    ensures st.config.enablePunctuation && st.config.punctuationModel != "" ==>
      r.punctuationReady == built
    ensures !(st.config.enablePunctuation && st.config.punctuationModel != "") ==>
      r.punctuationReady == st.punctuationReady
    ensures r == st.(punctuationReady := r.punctuationReady)
  {
    if st.config.enablePunctuation && st.config.punctuationModel != "" then st.(punctuationReady := built)
    else st
  }

  /** Stops the worker and releases the engines: both buffers are emptied and no speaker is
      active. The settings and the run-time meeting-mode flag are kept. */
  function Stop(st: State): (r: State)
    ensures r.history == [] && r.pending == [] && r.currentSpeaker == -1
    ensures !r.running && r.stopRequested && !r.punctuationReady && !r.diarizerReady
    ensures r.config == st.config && r.meetingModeEnabled == st.meetingModeEnabled
    ensures Valid(r)
  {
    st.(stopRequested := true, running := false, punctuationReady := false, diarizerReady := false,
        history := [], pending := [], currentSpeaker := -1)
  }

  /** Stopping twice is the same as stopping once, and a stopped recognizer can be started again. */
  lemma StopIdempotent(st: State)
    ensures Stop(Stop(st)) == Stop(st)
    ensures Start(Stop(st)).Ok?
  {
  }

  /** Loads settings; `data` is `None` for a null string, and `deserialize` stands for the JSON
      library, yielding `None` when it throws. A null or empty string keeps the settings. */
  function LoadConfig(st: State, data: Option<string>,
                      deserialize: string -> Option<ConfigEditor.Config>): (r: Result<State, LifecycleError>)
    ensures (data.None? || data.value == "") ==> r == Ok(st)
    ensures r.Ok? ==> r.value == st.(config := r.value.config)
    ensures data.Some? && data.value != "" ==>
      (r.Ok? <==> deserialize(data.value).Some?)
      && (r.Ok? ==> r.value.config == deserialize(data.value).value)
  {
    match data
    case None => Ok(st)
    case Some(text) =>
      if text == "" then Ok(st)
      else
        match deserialize(text)
        case Some(c) => Ok(st.(config := c))
        case None => Err(ConfigUnreadable)
  }

  // ---- interleavings of capture and the worker loop ----

  /** One atomic step: the producer feeds samples, or the worker runs one loop iteration. */
  datatype Step = FeedStep(samples: seq<Sample>) | TickStep(decoded: Decoded)

  /** The state and the events after a sequence of steps. */
  function RunSteps(st: State, steps: seq<Step>, punctuate: string -> Option<string>,
                    diarize: seq<Sample> -> Diarization): (r: (State, seq<Event>))
    ensures Valid(st) ==> Valid(r.0)
    decreases |steps|
  {
    if |steps| == 0 then (st, [])
    else
      match steps[0]
      case FeedStep(x) => RunSteps(Feed(st, x), steps[1..], punctuate, diarize)
      case TickStep(obs) =>
        var t := Tick(st, obs, punctuate, diarize);
        var rest := RunSteps(t.after, steps[1..], punctuate, diarize);
        (rest.0, t.events + rest.1)
  }

  /** The samples of the feed steps, in order. */
  function FedSamples(steps: seq<Step>): seq<Sample> {
    if |steps| == 0 then []
    else (if steps[0].FeedStep? then steps[0].samples else []) + FedSamples(steps[1..])
  }

  predicate OnlyFeeds(steps: seq<Step>) {
    forall i :: 0 <= i < |steps| ==> steps[i].FeedStep?
  }

  /** In meeting mode, a run of feeds appends every fed sample to the pending samples and
      leaves the history holding the most recent samples of the old history and the feeds. */
  lemma {:induction false} FeedsAccumulate(st: State, steps: seq<Step>, punctuate: string -> Option<string>,
                                           diarize: seq<Sample> -> Diarization)
    requires MeetingActive(st) && Valid(st) && OnlyFeeds(steps)
    ensures RunSteps(st, steps, punctuate, diarize).0.pending == st.pending + FedSamples(steps)
    ensures RunSteps(st, steps, punctuate, diarize).0.history
      == Last(st.history + FedSamples(steps), MaxAudioBufferSize)
    decreases |steps|
  {
    if |steps| == 0 {
      assert st.pending + [] == st.pending;
      TrimIsLast(st.history);
      assert st.history + [] == st.history;
    } else {
      var x := steps[0].samples;
      var fed := Feed(st, x);
      assert RunSteps(st, steps, punctuate, diarize) == RunSteps(fed, steps[1..], punctuate, diarize);
      assert OnlyFeeds(steps[1..]) by {
        forall i | 0 <= i < |steps[1..]| ensures steps[1..][i].FeedStep? {
          assert steps[1..][i] == steps[i + 1];
        }
      }
      FeedsAccumulate(fed, steps[1..], punctuate, diarize);
      var rest := FedSamples(steps[1..]);
      assert FedSamples(steps) == x + rest;
      assert st.pending + x + rest == st.pending + (x + rest);
      HistoryAfterFeeds(st.history, x, rest, fed.history);
    }
  }

  lemma HistoryAfterFeeds(h: seq<Sample>, x: seq<Sample>, rest: seq<Sample>, fedHistory: seq<Sample>)
    requires fedHistory == Last(h + x, MaxAudioBufferSize)
    ensures Last(fedHistory + rest, MaxAudioBufferSize) == Last(h + (x + rest), MaxAudioBufferSize)
  {
    LastAppend(h + x, rest, MaxAudioBufferSize);
    assert h + x + rest == h + (x + rest);
  }

  /** With empty buffers, feeding fewer samples than the history holds keeps all of them:
      the history is exactly the fed samples, in order. */
  lemma ShortRecordingKeptWhole(st: State, steps: seq<Step>, punctuate: string -> Option<string>,
                                diarize: seq<Sample> -> Diarization)
    requires MeetingActive(st) && st.history == [] && st.pending == [] && OnlyFeeds(steps)
    requires |FedSamples(steps)| <= MaxAudioBufferSize
    ensures RunSteps(st, steps, punctuate, diarize).0.history == FedSamples(steps)
    ensures RunSteps(st, steps, punctuate, diarize).0.pending == FedSamples(steps)
  {
    FeedsAccumulate(st, steps, punctuate, diarize);
    assert st.history + FedSamples(steps) == FedSamples(steps);
    assert st.pending + FedSamples(steps) == FedSamples(steps);
  }

  function CountSentences(events: seq<Event>): nat {
    if |events| == 0 then 0
    else (if events[0].SentenceDone? then 1 else 0) + CountSentences(events[1..])
  }

  lemma {:induction false} CountSentencesAppend(a: seq<Event>, b: seq<Event>)
    ensures CountSentences(a + b) == CountSentences(a) + CountSentences(b)
    decreases |a|
  {
    if |a| > 0 {
      assert (a + b)[1..] == a[1..] + b;
      CountSentencesAppend(a[1..], b);
    } else {
      assert a + b == b;
    }
  }

  /** A loop iteration that finalizes outside meeting mode. */
  predicate FinalTick(st: State, step: Step, punctuate: string -> Option<string>) {
    && step.TickStep?
    && step.decoded.text != ""
    && Punctuated(st, step.decoded.text, punctuate).Some?
    && Finalizes(step.decoded.isEndpoint, Punctuated(st, step.decoded.text, punctuate).value)
  }

  function CountFinalTicks(st: State, steps: seq<Step>, punctuate: string -> Option<string>): nat {
    if |steps| == 0 then 0
    else (if FinalTick(st, steps[0], punctuate) then 1 else 0) + CountFinalTicks(st, steps[1..], punctuate)
  }

  /** Outside meeting mode, with a punctuation model that never fails, the state never changes
      and exactly one sentence is emitted per loop iteration that sees a final hypothesis. */
  lemma {:induction false} OneSentencePerFinalTick(st: State, steps: seq<Step>,
                                                   punctuate: string -> Option<string>,
                                                   diarize: seq<Sample> -> Diarization)
    requires Looping(st) && !MeetingActive(st)
    requires forall t :: punctuate(t).Some?
    ensures RunSteps(st, steps, punctuate, diarize).0 == st
    ensures CountSentences(RunSteps(st, steps, punctuate, diarize).1) == CountFinalTicks(st, steps, punctuate)
    decreases |steps|
  {
    if |steps| > 0 {
      OneSentencePerFinalTick(st, steps[1..], punctuate, diarize);
      match steps[0]
      case FeedStep(x) =>
      case TickStep(obs) =>
        var t := Tick(st, obs, punctuate, diarize);
        PlainTickFinalizes(st, obs, punctuate, diarize);
        CountSentencesAppend(t.events, RunSteps(st, steps[1..], punctuate, diarize).1);
        assert CountSentences(t.events) == if FinalTick(st, steps[0], punctuate) then 1 else 0 by {
          if |t.events| == 2 {
            assert t.events[1..][1..] == [];
          } else if |t.events| == 1 {
            assert t.events[1..] == [];
          }
        }
    }
  }
}
