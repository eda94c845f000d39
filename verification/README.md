# Sherpa-Onnx recognizer plugin of TMSpeech, modelled in Dafny

TMSpeech turns live microphone audio into captions. Its Sherpa-Onnx recognizer plugin
runs an incremental speech decoder on a worker thread. On each loop iteration with a
non-empty hypothesis it reports the partial text. It reports a finished sentence when the
decoder signals an endpoint or the text passes 80 characters. In "meeting mode" it also
buffers the captured audio. At every finished sentence it asks an offline diarizer which
speaker was talking. When a speaker dominates the new audio, it puts a `[说话者_<id>] `
("speaker_<id>") label in front of the sentence. Otherwise the sentence goes out
unlabelled: when no segment overlaps the new audio, or when the diarizer is missing or
throws. In meeting mode a sentence can also be postponed: the iteration ends without
emitting it and without resetting the stream, so the decoder still holds the hypothesis.
Whether it is finalized again later depends on the decoder, which is not modelled. The two
cases are listed under "Behaviour reproduced as written". A configuration editor exposes the plugin's thirteen
settings to the settings form by key.

This project models that logic as pure functions on immutable records:

- `common.dfy`, module `Common`: `Option` and `Result`. They stand for nullable
  references and for calls that can throw.
- `audio_buffer.dfy`, module `AudioBuffer`: samples, the buffer constants (480000
  history samples, a 160000-sample diarization window, a 16000-sample minimum window,
  16 kHz), and FIFO eviction (`Trim`) with its reference definition `Last`.
- `attribution.dfy`, module `Attribution`: the new-audio offset and overlap weighting
  (0.8 for a segment that began before the offset, 1.0 otherwise). It also holds the
  insertion-ordered per-speaker dictionary, and the dominant-speaker choice that a stable
  descending sort makes (the first maximum wins).
- `speaker_tag.dfy`, module `SpeakerTag`: the speaker label and its inverse `Untag`. The
  inverse shows that a labelled sentence determines both the speaker and the text.
- `recognizer.dfy`, module `Recognizer`: the recognizer's state record, `Feed`, the
  attribution pass, one worker-loop iteration (`Tick`), `Start`, the start of a run,
  `Stop` and `LoadConfig`. It also has `RunSteps`, which runs any interleaving of feeds and
  loop iterations.
- `config_editor.dfy`, module `ConfigEditor`: the settings record and its defaults,
  `GetValue`/`SetValue` with the casts .NET performs, and `GetAll`. It also has the
  drop-down options, the form layout, and `LoadConfigString` with its fallback to the
  defaults.

The native engines are parameters:

- The streaming decoder is a `Decoded(isEndpoint, text)` observation per loop iteration.
- The punctuation model is a function `string -> Option<string>`, where `None` means it
  threw.
- The diarizer is a function from the window to `Segments(...)` or `DiarizeFailed`.
- The start of a run is described by an `Engines` record of three flags. They say whether
  the diarizer was built, whether the punctuation model was built, and whether the four
  model files were found. Building the decoder and its stream is not represented.
- The JSON library is a function `string -> Option<Config>`.
- The resource manager's model listing is a `seq<ModuleInfo>`.

Each `lock (_bufferLock)` block is one atomic step. A whole run is any sequence of
`FeedStep` and `TickStep`.

## Behaviour reproduced as written

These follow the source, not the behaviour its comments suggest:

- Finalizing in meeting mode appends the pending samples to the history a second time
  (`SherpaOnnxRecognizer.cs:277`). `Feed` has already appended them (line 97).
  `PendingAppendedTwice` proves that after feeding `s` and finalizing, the history ends
  with `s + s`.
- Two `continue` statements (lines 270 and 298) abandon the whole loop iteration: no
  sentence, no stream reset, no sleep. One fires when nothing is pending and the other
  when the window is shorter than one second. In the second case the pending samples are
  already drained. Attribution is not merely skipped: the sentence is not emitted on that
  iteration (`NoPendingSkipsTick`, `ShortWindowSkipsTick`).
- The "switch only when the speaker differs" test (line 373) has no effect. Whenever a
  dominant speaker exists it becomes the active one (`DominantBecomesActive`). The active
  speaker is kept only when no segment reaches into the new audio, or when diarization
  fails (`NoOverlapKeepsSpeaker`).
- An exception from the punctuation model (line 244) is not caught inside the loop. It
  ends the run (`PunctuationFailureEndsRun`).
- `Stop` does not reset `_meetingModeEnabled`. If the diarizer is missing, the call to it
  throws, the exception is caught, and the sentence goes out unlabelled. The
  `diarizerReady` flag models this.
- The form's clustering-threshold control has range 1 to 10. The default threshold is 0.5.

## Model

| member | source | states |
|---|---|---|
| `AudioBuffer.Trim` | src/Plugins/TMSpeech.Recognizer.SherpaOnnx/SherpaOnnxRecognizer.cs:98-102 | after eviction the history holds at most 480000 samples |
| `AudioBuffer.TrimIsLast` | src/Plugins/TMSpeech.Recognizer.SherpaOnnx/SherpaOnnxRecognizer.cs:99-102 | removing the oldest `count - 480000` samples keeps exactly the most recent 480000, and a short history is untouched |
| `AudioBuffer.LastAppend` | src/Plugins/TMSpeech.Recognizer.SherpaOnnx/SherpaOnnxRecognizer.cs:97-102 | evicting after every append keeps the same samples as one eviction after all appends |
| `Recognizer.Feed` | src/Plugins/TMSpeech.Recognizer.SherpaOnnx/SherpaOnnxRecognizer.cs:84-106 | in meeting mode, pending becomes old pending ++ samples and history becomes the last min(480000, ·) of old history ++ samples; otherwise nothing changes; the history bound is kept |
| `Recognizer.FeedsAccumulate` | src/Plugins/TMSpeech.Recognizer.SherpaOnnx/SherpaOnnxRecognizer.cs:90-104 | any run of feeds appends all fed samples to pending, and leaves the history as the most recent 480000 of old history ++ all fed samples |
| `Recognizer.ShortRecordingKeptWhole` | src/Plugins/TMSpeech.Recognizer.SherpaOnnx/SherpaOnnxRecognizer.cs:90-104 | from empty buffers, feeding at most 480000 samples leaves the history equal to exactly those samples in order |
| `Recognizer.Attribute` | src/Plugins/TMSpeech.Recognizer.SherpaOnnx/SherpaOnnxRecognizer.cs:257-392 | with nothing pending the iteration is abandoned unchanged; otherwise pending is emptied into the history; the iteration is abandoned exactly when the window is under 16000 samples; an emitted sentence is either unchanged with the old speaker or labelled with the new active speaker |
| `Recognizer.WindowIsRecent` | src/Plugins/TMSpeech.Recognizer.SherpaOnnx/SherpaOnnxRecognizer.cs:276-289 | the diarization window is the last min(160000, n) samples of history ++ pending and ends with all pending samples when they fit |
| `Recognizer.PendingAppendedTwice` | src/Plugins/TMSpeech.Recognizer.SherpaOnnx/SherpaOnnxRecognizer.cs:274-283 | after feeding `s` into an empty pending buffer and finalizing, the history ends with `s ++ s` |
| `Recognizer.RefilledAfterFeed` | src/Plugins/TMSpeech.Recognizer.SherpaOnnx/SherpaOnnxRecognizer.cs:276-283 | after one feed into an empty pending buffer, the attribution pass's history is the last 480000 samples of the old history followed by the fed samples twice |
| `Recognizer.DominantBecomesActive` | src/Plugins/TMSpeech.Recognizer.SherpaOnnx/SherpaOnnxRecognizer.cs:369-383 | when the dominant speaker d is at least 0, the active speaker becomes d and the sentence is `[说话者_d] ` + text, whatever was active before |
| `Recognizer.NoOverlapKeepsSpeaker` | src/Plugins/TMSpeech.Recognizer.SherpaOnnx/SherpaOnnxRecognizer.cs:305-392 | when no segment ends after the offset, or diarization throws, the active speaker is unchanged and the sentence is emitted without a label |
| `Recognizer.DrainIsIdempotent` | src/Plugins/TMSpeech.Recognizer.SherpaOnnx/SherpaOnnxRecognizer.cs:265-292 | after a pass nothing is pending, and a second pass with no feed in between changes nothing |
| `Attribution.NewDataOffset` | src/Plugins/TMSpeech.Recognizer.SherpaOnnx/SherpaOnnxRecognizer.cs:316-320 | the offset times 16000 equals window length minus new length when the window is longer, else the offset is 0 |
| `Attribution.FreshOutweighsHistoric` | src/Plugins/TMSpeech.Recognizer.SherpaOnnx/SherpaOnnxRecognizer.cs:326-341 | with equal positive overlap, a segment starting at or after the offset contributes strictly more than one starting before it |
| `Attribution.IndexOf` | src/Plugins/TMSpeech.Recognizer.SherpaOnnx/SherpaOnnxRecognizer.cs:342 | the position found is the first entry for the speaker, or the end when there is none |
| `Attribution.Add` | src/Plugins/TMSpeech.Recognizer.SherpaOnnx/SherpaOnnxRecognizer.cs:342-349 | the dictionary keeps distinct keys and gains exactly the added speaker |
| `Attribution.AddSpec` | src/Plugins/TMSpeech.Recognizer.SherpaOnnx/SherpaOnnxRecognizer.cs:342-349 | `+=` changes only the added speaker's total, by the added weight; an existing key keeps its place and a new key goes last |
| `Attribution.TallyIsSpeakerWeight` | src/Plugins/TMSpeech.Recognizer.SherpaOnnx/SherpaOnnxRecognizer.cs:324-351 | the accumulated dictionary holds, for every speaker, the sum of its overlapping segments' weighted durations, and has a key exactly for speakers with an overlapping segment |
| `Attribution.TallyOrder` | src/Plugins/TMSpeech.Recognizer.SherpaOnnx/SherpaOnnxRecognizer.cs:324-351 | dictionary order is the order of each speaker's first overlapping segment |
| `Attribution.FirstMaxIndex` | src/Plugins/TMSpeech.Recognizer.SherpaOnnx/SherpaOnnxRecognizer.cs:358-360 | the chosen entry has maximal weight and every earlier entry weighs strictly less, which is the first element after a stable descending sort |
| `Attribution.FirstMaxUnique` | src/Plugins/TMSpeech.Recognizer.SherpaOnnx/SherpaOnnxRecognizer.cs:358-360 | only one entry can be the first maximum |
| `Attribution.DominantSpeakerIsHeaviest` | src/Plugins/TMSpeech.Recognizer.SherpaOnnx/SherpaOnnxRecognizer.cs:353-367 | the dominant speaker is -1 exactly when no segment overlaps the new audio; otherwise it has maximal total, and a tie goes to the speaker whose first overlapping segment comes first |
| `Attribution.FreshSegmentWinsTie` | src/Plugins/TMSpeech.Recognizer.SherpaOnnx/SherpaOnnxRecognizer.cs:324-367 | of two speakers with equal overlap, the one whose segment starts at or after the offset is dominant in either listing order |
| `SpeakerTag.NatToString` | src/Plugins/TMSpeech.Recognizer.SherpaOnnx/SherpaOnnxRecognizer.cs:380 | a speaker number is written as its canonical decimal form: a non-empty run of digits that denotes the number, with no leading zero except for 0 itself |
| `SpeakerTag.UntagTagged` | src/Plugins/TMSpeech.Recognizer.SherpaOnnx/SherpaOnnxRecognizer.cs:380 | reading the label back from `[说话者_d] text` gives d and text |
| `SpeakerTag.TaggedInjective` | src/Plugins/TMSpeech.Recognizer.SherpaOnnx/SherpaOnnxRecognizer.cs:380 | different speakers or texts never give the same labelled sentence |
| `Recognizer.Tick` | src/Plugins/TMSpeech.Recognizer.SherpaOnnx/SherpaOnnxRecognizer.cs:229-404 | an empty hypothesis emits nothing; a non-empty one first emits its punctuated partial text; a sentence only ever follows the partial text of the same iteration; the stream is reset exactly when a sentence is emitted, and only for a non-empty hypothesis that is at an endpoint or longer than 80 characters; the history bound is kept; a non-final hypothesis leaves the state unchanged, resets nothing and sleeps; a non-final hypothesis reports exactly its partial text; a throwing punctuation model ends the run and reports only the exception |
| `Recognizer.MeetingTickIsAttribute` | src/Plugins/TMSpeech.Recognizer.SherpaOnnx/SherpaOnnxRecognizer.cs:254-403 | in meeting mode a final hypothesis takes the attribution pass's state; if the pass emits, the iteration reports the partial text then the (possibly labelled) sentence, resets and sleeps; if it skips, only the partial text is reported, with no reset and no sleep |
| `Recognizer.PlainTickFinalizes` | src/Plugins/TMSpeech.Recognizer.SherpaOnnx/SherpaOnnxRecognizer.cs:239-254 | outside meeting mode a sentence is emitted exactly when the hypothesis is non-empty and is at an endpoint or longer than 80 characters after punctuation, and it is that punctuated text |
| `Recognizer.NoPendingSkipsTick` | src/Plugins/TMSpeech.Recognizer.SherpaOnnx/SherpaOnnxRecognizer.cs:265-271 | in meeting mode with nothing pending, a final hypothesis yields only partial text, with no reset, no sleep and no state change |
| `Recognizer.ShortWindowSkipsTick` | src/Plugins/TMSpeech.Recognizer.SherpaOnnx/SherpaOnnxRecognizer.cs:274-299 | with a window under 16000 samples, pending is drained into the history but no sentence, reset or sleep happens |
| `Recognizer.PunctuationFailureEndsRun` | src/Plugins/TMSpeech.Recognizer.SherpaOnnx/SherpaOnnxRecognizer.cs:242-245 | a throwing punctuation model ends the loop, leaves no thread and reports the exception |
| `Recognizer.Crashed` | src/Plugins/TMSpeech.Recognizer.SherpaOnnx/SherpaOnnxRecognizer.cs:418-427 | after an escaping exception the stop flag is set and no thread remains; the buffers, the active speaker, the settings, the meeting flag and the engine slots stay |
| `Recognizer.RunSteps` | src/Plugins/TMSpeech.Recognizer.SherpaOnnx/SherpaOnnxRecognizer.cs:229-404 | every interleaving of feeds and loop iterations keeps the history within 480000 samples |
| `Recognizer.OneSentencePerFinalTick` | src/Plugins/TMSpeech.Recognizer.SherpaOnnx/SherpaOnnxRecognizer.cs:239-400 | outside meeting mode, with punctuation that never throws, the state never changes and the number of sentences equals the number of iterations that see a final hypothesis |
| `Recognizer.CountSentencesAppend` | src/Plugins/TMSpeech.Recognizer.SherpaOnnx/SherpaOnnxRecognizer.cs:395-398 | the sentences of two event sequences add up |
| `Recognizer.Start` | src/Plugins/TMSpeech.Recognizer.SherpaOnnx/SherpaOnnxRecognizer.cs:407-430 | start fails with "already running" exactly when a thread exists; otherwise the loop runs, and the buffers, speaker, settings, meeting flag and engine slots are kept |
| `Recognizer.BeginRun` | src/Plugins/TMSpeech.Recognizer.SherpaOnnx/SherpaOnnxRecognizer.cs:126-227 | meeting mode ends up on exactly when configured and the diarizer was built, which also empties pending; without meeting mode configured, the meeting flag, the diarizer slot and pending are untouched, and a failed diarizer build leaves the slot and pending untouched; punctuation is attached when configured, with a model, and built; missing model files end the run with an exception |
| `Recognizer.SetUpMeeting` | src/Plugins/TMSpeech.Recognizer.SherpaOnnx/SherpaOnnxRecognizer.cs:133-166 | with meeting mode configured, the run-time flag ends up on exactly when the diarizer was built, and then pending is empty; a failed build switches the flag off and keeps the diarizer slot; without meeting mode configured nothing changes; buffers, speaker, punctuation slot and lifecycle flags are kept |
| `Recognizer.AttachPunctuation` | src/Plugins/TMSpeech.Recognizer.SherpaOnnx/SherpaOnnxRecognizer.cs:169-184 | the punctuation slot follows whether the model was built exactly when punctuation is enabled and a model is configured; otherwise, and for every other field, nothing changes |
| `Recognizer.Stop` | src/Plugins/TMSpeech.Recognizer.SherpaOnnx/SherpaOnnxRecognizer.cs:432-455 | both buffers are empty, no speaker is active, no thread remains and the engines are released; the settings and the run-time meeting flag are kept |
| `Recognizer.StopIdempotent` | src/Plugins/TMSpeech.Recognizer.SherpaOnnx/SherpaOnnxRecognizer.cs:432-455 | a second stop changes nothing, and start succeeds after stop |
| `Recognizer.LoadConfig` | src/Plugins/TMSpeech.Recognizer.SherpaOnnx/SherpaOnnxRecognizer.cs:38-44 | a null or empty string keeps the settings; otherwise the deserialized settings replace them and nothing else changes; a failing deserializer is an error |
| `ConfigEditor.RoundHalfEven` | src/Plugins/TMSpeech.Recognizer.SherpaOnnx/SherpaOnnxConfigEditor.cs:81 | the result is within one half of the input, and an exact half goes to the even neighbour |
| `ConfigEditor.ToInt32` | src/Plugins/TMSpeech.Recognizer.SherpaOnnx/SherpaOnnxConfigEditor.cs:81 | a converted number lies in the 32-bit range; an in-range integer is kept; a fraction is rounded to within one half; a boolean becomes 1 or 0 |
| `ConfigEditor.ToInt32Range` | src/Plugins/TMSpeech.Recognizer.SherpaOnnx/SherpaOnnxConfigEditor.cs:81 | an integer converts exactly when it is in the 32-bit range; a double converts exactly when -2147483648.5 <= x < 2147483647.5; an exact half rounds to the even neighbour; every failure other than a string's is an overflow |
| `ConfigEditor.ToDouble` | src/Plugins/TMSpeech.Recognizer.SherpaOnnx/SherpaOnnxConfigEditor.cs:83 | integers widen exactly, doubles are kept, booleans become 1.0 or 0.0, and only strings fail (see Left out) |
| `ConfigEditor.KeysKnown` | src/Plugins/TMSpeech.Recognizer.SherpaOnnx/SherpaOnnxConfigEditor.cs:86-101 | a key is one of the thirteen exactly when it has a conversion kind |
| `ConfigEditor.KeysDistinct` | src/Plugins/TMSpeech.Recognizer.SherpaOnnx/SherpaOnnxConfigEditor.cs:15-51 | the thirteen keys are pairwise different |
| `ConfigEditor.GetAfterSet` | src/Plugins/TMSpeech.Recognizer.SherpaOnnx/SherpaOnnxConfigEditor.cs:59-100 | for each known key, the write succeeds exactly when the value converts to the key's type, and reading the key afterwards returns the converted value; a failed write reports the cast's exception |
| `ConfigEditor.GetAfterSetString` | src/Plugins/TMSpeech.Recognizer.SherpaOnnx/SherpaOnnxConfigEditor.cs:59-100 | a string written to a text setting always succeeds and reads back unchanged |
| `ConfigEditor.GetValueFrame` | src/Plugins/TMSpeech.Recognizer.SherpaOnnx/SherpaOnnxConfigEditor.cs:86-101 | a key's value depends only on the field behind that key |
| `ConfigEditor.SetChangesOnlyItsKey` | src/Plugins/TMSpeech.Recognizer.SherpaOnnx/SherpaOnnxConfigEditor.cs:59-84 | a successful write leaves the value of every other key unchanged |
| `ConfigEditor.SetLaterKeyFrame` | src/Plugins/TMSpeech.Recognizer.SherpaOnnx/SherpaOnnxConfigEditor.cs:73-83 | the same frame property for writes to the meeting-mode switch and the five meeting settings |
| `ConfigEditor.ValuesDetermineConfig` | src/Plugins/TMSpeech.Recognizer.SherpaOnnx/SherpaOnnxConfigEditor.cs:86-100 | two settings records that read alike on all thirteen keys are equal, so the frame property covers the whole record |
| `ConfigEditor.UnknownKeyIgnored` | src/Plugins/TMSpeech.Recognizer.SherpaOnnx/SherpaOnnxConfigEditor.cs:59-101 | writing an unknown key changes nothing and raises no event; reading it gives the empty string |
| `ConfigEditor.FormEventKeys` | src/Plugins/TMSpeech.Recognizer.SherpaOnnx/SherpaOnnxConfigEditor.cs:61-78 | a successful write raises the form-items-updated event exactly for `model` and `enable_meeting_mode` |
| `ConfigEditor.QuietWriteKeepsForm` | src/Plugins/TMSpeech.Recognizer.SherpaOnnx/SherpaOnnxConfigEditor.cs:59-84 | a write that raises no event leaves the form unchanged |
| `ConfigEditor.GetAll` | src/Plugins/TMSpeech.Recognizer.SherpaOnnx/SherpaOnnxConfigEditor.cs:175-193 | the dictionary has exactly the thirteen keys, and each value equals what `GetValue` returns for that key |
| `ConfigEditor.LoadConfigString` | src/Plugins/TMSpeech.Recognizer.SherpaOnnx/SherpaOnnxConfigEditor.cs:195-205 | a successful load gives the deserialized settings; a failed one gives exactly the default record: no model, punctuation on, meeting mode off, 5 clusters, threshold not used, threshold 0.5, and the default model-file paths |
| `ConfigEditor.ModelEntries` | src/Plugins/TMSpeech.Recognizer.SherpaOnnx/SherpaOnnxConfigEditor.cs:106-114 | there is one entry `(id, "name (id)")` for each installed sherpa-onnx model, and no entry from anything else |
| `ConfigEditor.Distinct` | src/Plugins/TMSpeech.Recognizer.SherpaOnnx/SherpaOnnxConfigEditor.cs:112 | the union keeps the same entries without repeats, and the first entry stays first |
| `ConfigEditor.ModelOptions` | src/Plugins/TMSpeech.Recognizer.SherpaOnnx/SherpaOnnxConfigEditor.cs:109-115 | building the options fails exactly when two different entries share a key; otherwise the custom `""` entry comes first, keys are distinct and every candidate is present |
| `ConfigEditor.GetFormItems` | src/Plugins/TMSpeech.Recognizer.SherpaOnnx/SherpaOnnxConfigEditor.cs:104-169 | the form can be built exactly when the model options have consistent keys |
| `ConfigEditor.ItemKeys` | src/Plugins/TMSpeech.Recognizer.SherpaOnnx/SherpaOnnxConfigEditor.cs:119-165 | lists the key of each form item, position by position |
| `ConfigEditor.ItemKeysAppend` | src/Plugins/TMSpeech.Recognizer.SherpaOnnx/SherpaOnnxConfigEditor.cs:130-158 | appending items appends their keys |
| `ConfigEditor.LayoutKeys` | src/Plugins/TMSpeech.Recognizer.SherpaOnnx/SherpaOnnxConfigEditor.cs:117-168 | the form's keys are `model`, then the four model files only with no named model, then the three switches, then the five meeting settings only in meeting mode |
| `ConfigEditor.FormLayout` | src/Plugins/TMSpeech.Recognizer.SherpaOnnx/SherpaOnnxConfigEditor.cs:117-168 | the model choice comes first; the four file pickers appear exactly when no named model is set; the five meeting settings come last exactly in meeting mode; the form has 4, 8, 9 or 13 items, all with known keys |
| `ConfigEditor.ClusterCountControl` | src/Plugins/TMSpeech.Recognizer.SherpaOnnx/SherpaOnnxConfigEditor.cs:128-138 | the speaker-count control, an integer from 1 to 10, is on the form exactly in meeting mode |

## Left out

- The native engines (online recognizer and stream, offline punctuation, offline speaker
  diarization) are abstract parameters. Their algorithms are outside this model.
- Feeding samples to the decoder stream (`AcceptWaveform`, line 105) and the decode loop
  `while (IsReady) Decode` are not modelled. The decoder is represented only by what it
  reports after draining.
- Threads, locks, `Thread.Sleep` and `Join` are not modelled. Each locked block is one
  atomic step. Whether an iteration reaches the sleep is reported as a flag.
- Model file resolution is not modelled: resource manager lookup, `Path.Combine` and
  `File.Exists`. Its outcome is the `modelFilesFound` flag. The recognizer configuration
  constants (feature dimension, decoding method, endpoint rules) are not modelled either.
- JSON serialisation (`GenerateConfig`) and deserialisation are library calls. They are
  modelled as a function parameter, so no round trip is claimed. A JSON `null` that
  deserialises to a null settings object is not modelled.
- Trace logging, the plugin metadata strings, and the unused `SpeakerSegment.Text`,
  `SpeakerHistory`, `_speakerSegments` and `_lastProcessedAudioLength` are not modelled.
- 32-bit float arithmetic is not modelled. Samples, segment times, offsets and weights
  are exact reals, so float rounding in the offset and the weighted sums is ignored.
- Text length is counted in characters, not UTF-16 code units.
- `Recognizer.Feed`: takes samples, not the source's `byte[]`. The source reinterprets
  the bytes as 32-bit floats (lines 86-87), and that reinterpretation silently drops a
  trailing partial float of 1 to 3 bytes. Neither the byte-to-float decoding nor the
  dropped bytes are modelled.
- `Attribution.DominantSpeakerIsHeaviest`: assumes the diarizer never reports a negative
  speaker id. The source's `-1` "no speaker" value (line 354) relies on the same
  assumption.
- `ConfigEditor.ToInt32`: a string value is modelled as a conversion failure. .NET's
  `Convert.ToInt32` would parse a numeric string.
- `ConfigEditor.ToDouble`: a string value is modelled as a conversion failure. .NET's
  `Convert.ToDouble` would parse a numeric string.
- Null values passed to `SetValue` are not modelled. A null string would be stored as
  null, and a null boolean would throw.
- Exceptions from the decoder are not modelled. A diarizer that exists but throws inside
  `Process` is modelled: it is the `DiarizeFailed` outcome.
- The Avalonia settings view that renders the form and wires its events is not modelled.
