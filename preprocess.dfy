/**
 * src/ccaudio/preprocess.py: `convert_audio(cut, sr)`, which brings a cut to mono at
 * a given rate, and `separate`, which replaces a cut's recording with the vocals
 * track produced by a source separator.
 */
module Preprocess {
  import opened Wrappers
  import opened Lhotse
  import Ingest

  /**
   * `convert_audio(cut, sr)`: a MultiCut is downmixed with `toMono`, a MonoCut is used
   * as it is, and the result is resampled with `resample`; the final
   * `assert isinstance(resampled_cut, MonoCut)` is the Err branch.
   */
  function ConvertAudio(m: CutManifest, sr: nat, toMono: CutManifest -> CutManifest,
                        resample: (CutManifest, nat) -> CutManifest): (r: Result<CutManifest, string>)
    ensures r.Ok? ==> r.value.IsMono()
    ensures m.IsMono() ==> r.Ok? ==> r.value == resample(m, sr)
    ensures !m.IsMono() ==> r.Ok? ==> r.value == resample(toMono(m), sr)
  {
    var mono := if m.IsMono() then m else toMono(m);
    var resampled := resample(mono, sr);
    if resampled.IsMono() then Ok(resampled) else Err("AssertionError")
  }

  /**
   * With lhotse's downmix and resample, `convert_audio` never fails: the result is a
   * MonoCut at `sr` with the same id, times, supervisions and custom data; a MonoCut
   * keeps its recording's channels (no downmix), a MultiCut is downmixed.
   */
  lemma ConvertAudioWithLhotse(m: CutManifest, sr: nat)
    ensures var r := ConvertAudio(m, sr, DownmixToMono, ResampleTo);
      r.Ok? && r.value.IsMono() && r.value.recording.samplingRate == sr
      && r.value.id == m.id && r.value.start == m.start && r.value.duration == m.duration
      && r.value.supervisions == m.supervisions && r.value.custom == m.custom
      && r.value.recording.id == m.recording.id
      && (m.IsMono() ==> r.value.channel == m.channel && r.value.recording.channelIds == m.recording.channelIds
                         && DownmixMono !in r.value.recording.transforms[|m.recording.transforms|..])
      && (!m.IsMono() ==> r.value.channel == Single(0) && r.value.recording.channelIds == [0]
                          && DownmixMono in r.value.recording.transforms)
  {
    var mono := if m.IsMono() then m else DownmixToMono(m);
    assert mono.IsMono();
    var r := ResampleTo(mono, sr);
    if !m.IsMono() {
      assert mono.recording.transforms[|mono.recording.transforms| - 1] == DownmixMono;
      assert r.recording.transforms[..|mono.recording.transforms|] == mono.recording.transforms;
      assert r.recording.transforms[|mono.recording.transforms| - 1] == DownmixMono;
    } else if r != m {
      assert r.recording.transforms[|m.recording.transforms|..] == [Resample(sr)];
    }
  }

  /** Converting a converted cut again changes nothing. */
  lemma ConvertAudioIdempotent(m: CutManifest, sr: nat)
    ensures var r := ConvertAudio(m, sr, DownmixToMono, ResampleTo);
      r.Ok? && ConvertAudio(r.value, sr, DownmixToMono, ResampleTo) == r
  {
    ConvertAudioWithLhotse(m, sr);
  }

  /** Converting keeps the cut invariants of a cut whose recording has the channels 0..n-1. */
  lemma ConvertAudioKeepsWellFormed(m: CutManifest, sr: nat)
    requires Ingest.WellFormed(m) && Ingest.ValidRecording(m.recording)
    ensures var r := ConvertAudio(m, sr, DownmixToMono, ResampleTo);
      r.Ok? && Ingest.WellFormed(r.value)
  {
    ConvertAudioWithLhotse(m, sr);
    var r := ConvertAudio(m, sr, DownmixToMono, ResampleTo).value;
    assert r.recording.duration == m.recording.duration;
    if m.IsMono() {
      assert r.channel == m.channel && r.recording.channelIds == m.recording.channelIds;
    } else {
      assert r.channel == Single(0) && r.recording.channelIds == [0];
    }
  }

  /**
   * The audio handed to the separator: a single channel is repeated to two, any other
   * shape is passed unchanged.
   */
  function SeparatorInput(audio: seq<seq<real>>): (r: seq<seq<real>>)
    ensures |audio| == 1 ==> r == [audio[0], audio[0]]
    ensures |audio| >= 1 ==> |r| >= 2
    ensures |audio| != 1 ==> r == audio
    ensures forall k :: 0 <= k < |r| ==> r[k] in audio
    ensures forall c :: c in audio ==> c in r
  {
    if |audio| == 1 then [audio[0], audio[0]] else audio
  }

  /**
   * `separate(cut, separator)`: the cut's audio (`audio`, what `cut.load_audio()`
   * returns) goes through the separator, and the recording decoded from the vocals
   * track (`vocals`) replaces `cut.recording` under the old recording id. Nothing else
   * on the cut changes, and the same cut object is returned.
   */
  method Separate(cut: Cut, audio: seq<seq<real>>, vocals: seq<seq<real>> -> Recording) returns (r: Cut)
    modifies cut
    ensures r == cut
    ensures cut.recording == vocals(SeparatorInput(audio)).(id := old(cut.recording.id))
    ensures cut.RecordingId() == old(cut.RecordingId())
    ensures cut.Manifest() == old(cut.Manifest()).(recording := cut.recording)
  {
    var input := SeparatorInput(audio);
    var recording := vocals(input).(id := cut.RecordingId());
    cut.recording := recording;
    r := cut;
  }
}
